/** `table.insert` and `table.remove`: loops that move one value at a time insert into and delete
    from the sequence of values at 1, 2, ..., up to the table's length. */
module TableLibrary {
  import opened Syntax
  import opened Values
  import opened Heap
  import opened Semantics
  import opened SemanticsSteps
  import opened Invariants
  import opened Tables
  import opened Executor

  /** An argument that must be an integer. */
  function IntegerArgument(v: Value): Option<int> { if v.NumV? then AsInteger(v.num) else None }

  /** Where a value goes in a table of length n: the second of three arguments, or after the last. */
  function InsertAt(args: seq<Value>, n: nat): Option<int> {
    if |args| < 2 || !args[0].TabV? then None
    else
      var p := if |args| == 2 then Some(n + 1) else IntegerArgument(args[1]);
      if p.Some? && 1 <= p.value <= n + 1 then p else None
  }

  /** Which value is removed from a table of length n, if the arguments are valid. */
  function RemoveAt(args: seq<Value>, n: nat): Option<int> {
    if |args| < 1 || !args[0].TabV? then None
    else if |args| == 1 then Some(n)
    else IntegerArgument(args[1])
  }

  // ---- moving one value --------------------------------------------------------------------

  lemma NotMoved(m: map<Value, Value>, lo: int, hi: int, step: int)
    requires lo > hi
    ensures Moved(m, m, lo, hi, step, None)
  {
  }

  lemma LookUpdated(m: map<Value, Value>, k: Value, v: Value, q: Value)
    ensures Look(Updated(m, k, v), q) == if q == k then v else Look(m, q)
  {
  }

  lemma KeyOfInt(k: Value, i: int)
    ensures KeyInt(k) == Some(i) <==> k == IntKey(i)
  {
  }

  /** One more key below or above is filled. */
  lemma OneMoved(m: map<Value, Value>, m1: map<Value, Value>, i: int, lo: int, hi: int, lo': int, hi': int, step: int)
    requires Moved(m, m1, lo, hi, step, None) && (step == 1 || step == -1)
    requires (lo' == i == lo - 1 && hi' == hi >= i && step == -1) || (hi' == i == hi + 1 && lo' == lo <= i && step == 1)
    ensures Look(m1, IntKey(i + step)) == Look(m, IntKey(i + step)) && Look(m1, IntKey(i)) == Look(m, IntKey(i))
    ensures Moved(m, Updated(m1, IntKey(i), Look(m1, IntKey(i + step))), lo', hi', step, None)
  {
    var m2 := Updated(m1, IntKey(i), Look(m1, IntKey(i + step)));
    KeyOfInt(IntKey(i), i);
    KeyOfInt(IntKey(i + step), i + step);
    forall k ensures Look(m2, k) == Look(m, Source(k, lo', hi', step)) {
      LookUpdated(m1, IntKey(i), Look(m1, IntKey(i + step)), k);
      KeyOfInt(k, i);
      assert Look(m1, k) == Look(m, Source(k, lo, hi, step));
    }
  }

  /** The last store fills the hole. */
  lemma HoleFilled(m: map<Value, Value>, m1: map<Value, Value>, lo: int, hi: int, step: int, hole: Value, v: Value)
    requires Moved(m, m1, lo, hi, step, None)
    ensures Moved(m, Updated(m1, hole, v), lo, hi, step, Some(hole)) && Look(Updated(m1, hole, v), hole) == v
  {
    var m2 := Updated(m1, hole, v);
    forall k | k != hole ensures Look(m2, k) == Look(m, Source(k, lo, hi, step)) {
      LookUpdated(m1, hole, v, k);
      assert Look(m1, k) == Look(m, Source(k, lo, hi, step));
    }
  }

  // ---- the natives -------------------------------------------------------------------------

  /** A sound heap in which nothing but table t has been touched since s. */
  ghost predicate Touched(s: State, s': State, t: nat) { Inv(s') && OnlyTable(s, s', t) && |s'.closures| == |s.closures| }

  lemma Untouched(s: State, t: nat)
    requires Inv(s) && t < |s.tables|
    ensures Touched(s, s, t)
  {
    hide Inv;
  }

  lemma TouchedTrans(s: State, s1: State, s2: State, t: nat)
    requires Touched(s, s1, t) && Touched(s1, s2, t)
    ensures Touched(s, s2, t)
  {
    hide Inv;
  }

  lemma SmallKey(i: int)
    requires 0 <= i <= ENTRY_LIMIT + 1
    ensures KeyFault(IntKey(i)).None?
  {
    assert (i as real).Floor == i;
  }

  /** What a table's length says of its map. */
  lemma LengthFacts(s: State, t: nat)
    requires Inv(s) && t < |s.tables|
    ensures var n := Border(RowsAt(s, t));
      Dense(MapAt(s, t), n) && Look(MapAt(s, t), IntKey(n + 1)) == NilV && n <= ENTRY_LIMIT
  {
    hide Inv;
    var rows := RowsAt(s, t);
    var n := Border(rows);
    BorderIsLeast(rows, n);
    MapIsSound(s, t);
    forall i | 1 <= i <= n ensures HasKey(rows, IntKey(i)) {
      ContentsAt(rows, IntKey(i));
      assert Look(MapAt(s, t), IntKey(i)) != NilV;
    }
    ConsecutiveFits(rows, n);
  }

  /** One store into the table, which keeps the heap sound. */
  method Store(rt: Runtime, t: nat, i: int, v: Value) returns (ok: bool)
    requires Inv(rt.Now()) && t < |rt.tables| && 0 <= i <= ENTRY_LIMIT + 1 && Live(v, |rt.tables|, |rt.closures|)
    modifies rt`tables, rt`tableEntries, rt`allocations, rt`fault
    ensures Touched(old(rt.Now()), rt.Now(), t)
    ensures MapAt(rt.Now(), t)
         == if ok then Updated(old(MapAt(rt.Now(), t)), IntKey(i), v) else old(MapAt(rt.Now(), t))
    ensures ok <==> v == NilV || Look(old(MapAt(rt.Now(), t)), IntKey(i)) != NilV || HasRoom(rt.w, old(rt.Now()), t)
  {
    hide Inv, TableSet, Contents, HasRoom;
    MapIsSound(rt.Now(), t);
    SmallKey(i);
    SetIsUpdate(rt.w, rt.Now(), t, IntKey(i), v);
    TableSetFine(rt.w, rt.Now(), t, IntKey(i), v);
    ok := rt.SetEntry(t, IntKey(i), v);
  }

  method Load(rt: Runtime, t: nat, i: int) returns (v: Value)
    requires Inv(rt.Now()) && t < |rt.tables| && 0 <= i <= ENTRY_LIMIT + 1
    modifies rt`fault
    ensures rt.Now() == old(rt.Now()) && v == Look(MapAt(rt.Now(), t), IntKey(i))
    ensures Live(v, |rt.tables|, |rt.closures|)
  {
    hide Inv, Contents;
    SmallKey(i);
    ContentsAt(RowsAt(rt.Now(), t), IntKey(i));
    RowLive(rt.Now(), t, IntKey(i));
    var ok, vs := rt.ReadEntry(TabV(t), IntKey(i));
    v := vs[0];
  }

  /** What the last argument of `insert` is. */
  function Inserted(args: seq<Value>): Value
    requires |args| >= 2
  {
    if |args| == 2 then args[1] else args[2]
  }

  /** Must there be room for one more row? Only inserting nil after the last value needs none. */
  predicate NeedsRoom(args: seq<Value>, p: int, n: nat)
    requires |args| >= 2
  {
    p <= n || Inserted(args) != NilV
  }

  /** Insert the last argument. It either takes effect as a whole or leaves the table as it was,
      and it fails exactly for its arguments and for lack of room for one more row. */
  method Insert(rt: Runtime, args: seq<Value>) returns (ok: bool)
    requires Inv(rt.Now()) && AllLive(args, |rt.tables|, |rt.closures|)
    modifies rt`tables, rt`tableEntries, rt`allocations, rt`fault
    ensures |args| < 2 || !args[0].TabV? ==> !ok && rt.tables == old(rt.tables)
    ensures |args| >= 2 && args[0].TabV? ==>
      var t, n := args[0].table, old(Border(RowsAt(rt.Now(), args[0].table)));
      var m, m', p := old(MapAt(rt.Now(), args[0].table)), MapAt(rt.Now(), t), InsertAt(args, n);
      && Touched(old(rt.Now()), rt.Now(), t)
      && (ok <==> p.Some? && (NeedsRoom(args, p.value, n) ==> HasRoom(rt.w, old(rt.Now()), t)))
      && (ok ==> MovedUp(m, m', p.value, n) && Look(m', IntKey(p.value)) == Inserted(args))
      && (!ok ==> m' == m)
  {
    hide Inv, Contents, Border, OnlyTable, Touched, Moved, InsertAt, BorderFrom, HasRoom;
    if |args| < 2 || !args[0].TabV? {
      rt.FailWith(NativeFailed);
      return false;
    }
    ok := InsertInto(rt, args);
  }

  method InsertInto(rt: Runtime, args: seq<Value>) returns (ok: bool)
    requires Inv(rt.Now()) && AllLive(args, |rt.tables|, |rt.closures|) && |args| >= 2 && args[0].TabV?
    modifies rt`tables, rt`tableEntries, rt`allocations, rt`fault
    ensures var t, n := args[0].table, old(Border(RowsAt(rt.Now(), args[0].table)));
      var m, m', p := old(MapAt(rt.Now(), args[0].table)), MapAt(rt.Now(), t), InsertAt(args, n);
      && Touched(old(rt.Now()), rt.Now(), t)
      && (ok <==> p.Some? && (NeedsRoom(args, p.value, n) ==> HasRoom(rt.w, old(rt.Now()), t)))
      && (ok ==> MovedUp(m, m', p.value, n) && Look(m', IntKey(p.value)) == Inserted(args))
      && (!ok ==> m' == m)
  {
    hide Inv, Contents, Border, OnlyTable, Touched, Moved, BorderFrom, HasRoom;
    ghost var s := rt.Now();
    var t := args[0].table;
    var n := rt.TableLength(t);
    var p := InsertAt(args, n);
    LengthFacts(s, t);
    Untouched(s, t);
    if p.None? {
      Failing(s, NativeFailed, t);
      rt.FailWith(NativeFailed);
      return false;
    }
    ghost var m := MapAt(s, t);
    ok := true;
    var i := n;
    NotMoved(m, n + 2, n + 1, -1);
    while ok && i >= p.value
      invariant p.value - 1 <= i <= n && Touched(s, rt.Now(), t)
      invariant if ok then Moved(m, MapAt(rt.Now(), t), i + 2, n + 1, -1, None) else MapAt(rt.Now(), t) == m
      invariant i == n && ok ==> rt.Now() == s
      invariant i < n || !ok ==> p.value <= n && ok == HasRoom(rt.w, s, t)
      decreases ok, i
    {
      TouchedFacts(s, rt.Now(), t);
      var v := Load(rt, t, i);
      OneMoved(m, MapAt(rt.Now(), t), i + 1, i + 2, n + 1, i + 1, n + 1, -1);
      ghost var s1 := rt.Now();
      ok := Store(rt, t, i + 1, v);
      TouchedTrans(s, s1, rt.Now(), t);
      if ok {
        i := i - 1;
      }
    }
    if ok {
      TouchedFacts(s, rt.Now(), t);
      StillThere(m, MapAt(rt.Now(), t), p.value, n);
      HoleFilled(m, MapAt(rt.Now(), t), p.value + 1, n + 1, -1, IntKey(p.value), Inserted(args));
      ghost var s1 := rt.Now();
      ok := Store(rt, t, p.value, Inserted(args));
      TouchedTrans(s, s1, rt.Now(), t);
    }
  }

  /** The place where a value goes has one already, unless it is after the last. */
  lemma StillThere(m: map<Value, Value>, m1: map<Value, Value>, p: int, n: nat)
    requires Moved(m, m1, p + 1, n + 1, -1, None) && Dense(m, n) && 1 <= p <= n + 1
    ensures p <= n ==> Look(m1, IntKey(p)) != NilV
  {
    KeyOfInt(IntKey(p), p);
    assert Look(m1, IntKey(p)) == Look(m, Source(IntKey(p), p + 1, n + 1, -1));
  }

  lemma Failing(s: State, f: Fault, t: nat)
    requires Touched(s, s, t) && !IllFormed(f)
    ensures Touched(s, Fail(s, f), t) && MapAt(Fail(s, f), t) == MapAt(s, t)
  {
    FailFine(s, f);
    FailKeeps(s, f);
    hide Inv, Contents;
  }

  lemma TouchedFacts(s: State, s': State, t: nat)
    requires Touched(s, s', t)
    ensures Inv(s') && t < |s.tables| == |s'.tables| && |s'.closures| == |s.closures|
  {
    hide Inv;
  }

  // ---- remove ------------------------------------------------------------------------------

  /** Remove the value at a position, the last one by default; nil if the position is outside. It
      fails only for its arguments. */
  method Remove(rt: Runtime, args: seq<Value>) returns (ok: bool, removed: Value)
    requires Inv(rt.Now()) && AllLive(args, |rt.tables|, |rt.closures|)
    modifies rt`tables, rt`tableEntries, rt`allocations, rt`fault
    ensures |args| < 1 || !args[0].TabV? ==> !ok && rt.tables == old(rt.tables)
    ensures |args| >= 1 && args[0].TabV? ==>
      var t, n := args[0].table, old(Border(RowsAt(rt.Now(), args[0].table)));
      var m, m', p := old(MapAt(rt.Now(), args[0].table)), MapAt(rt.Now(), t), RemoveAt(args, n);
      && Touched(old(rt.Now()), rt.Now(), t)
      && ok == p.Some?
      && (ok && 1 <= p.value <= n ==> removed == Look(m, IntKey(p.value)) && MovedDown(m, m', p.value, n))
      && (!ok || p.value < 1 || n < p.value ==> removed == NilV && m' == m)
  {
    hide Inv, Contents, Border, OnlyTable, Touched, Moved, RemoveAt, BorderFrom;
    if |args| < 1 || !args[0].TabV? {
      rt.FailWith(NativeFailed);
      return false, NilV;
    }
    ghost var s := rt.Now();
    var t := args[0].table;
    var n := rt.TableLength(t);
    var p := RemoveAt(args, n);
    Untouched(s, t);
    if p.None? {
      Failing(s, NativeFailed, t);
      rt.FailWith(NativeFailed);
      return false, NilV;
    }
    if n == 0 || p.value < 1 || p.value > n { return true, NilV; }
    removed := RemoveFrom(rt, t, n, p.value);
    ok := true;
  }

  method RemoveFrom(rt: Runtime, t: nat, n: nat, p: int) returns (removed: Value)
    requires Inv(rt.Now()) && t < |rt.tables| && n == Border(RowsAt(rt.Now(), t)) && 1 <= p <= n
    modifies rt`tables, rt`tableEntries, rt`allocations, rt`fault
    ensures Touched(old(rt.Now()), rt.Now(), t)
    ensures removed == Look(old(MapAt(rt.Now(), t)), IntKey(p))
    ensures MovedDown(old(MapAt(rt.Now(), t)), MapAt(rt.Now(), t), p, n)
  {
    hide Inv, Contents, Border, OnlyTable, Touched, Moved, BorderFrom;
    ghost var s := rt.Now();
    LengthFacts(s, t);
    Untouched(s, t);
    ghost var m := MapAt(s, t);
    removed := Load(rt, t, p);
    var i := p;
    NotMoved(m, p, p - 1, 1);
    while i < n
      invariant p <= i <= n && Touched(s, rt.Now(), t)
      invariant Moved(m, MapAt(rt.Now(), t), p, i - 1, 1, None)
    {
      TouchedFacts(s, rt.Now(), t);
      var v := Load(rt, t, i + 1);
      OneMoved(m, MapAt(rt.Now(), t), i, p, i - 1, p, i, 1);
      DenseAt(m, n, i);
      ghost var s1 := rt.Now();
      var stored := Store(rt, t, i, v);
      TouchedTrans(s, s1, rt.Now(), t);
      i := i + 1;
    }
    TouchedFacts(s, rt.Now(), t);
    HoleFilled(m, MapAt(rt.Now(), t), p, n - 1, 1, IntKey(n), NilV);
    ghost var s1 := rt.Now();
    var stored := Store(rt, t, n, NilV);
    TouchedTrans(s, s1, rt.Now(), t);
  }

  lemma DenseAt(m: map<Value, Value>, n: nat, i: int)
    requires Dense(m, n) && 1 <= i <= n
    ensures Look(m, IntKey(i)) != NilV
  {
  }

  // ---- what they mean ----------------------------------------------------------------------

  /** After an insertion of a value the table is longer by exactly one, unless the key after that
      was in use already, and its values are the old ones with the new one among them. */
  lemma InsertionIsSequence(m: map<Value, Value>, m': map<Value, Value>, n: nat, p: int, v: Value)
    requires Dense(m, n) && 1 <= p <= n + 1 && v != NilV
    requires MovedUp(m, m', p, n) && Look(m', IntKey(p)) == v
    ensures Listed(m', n + 1) == Listed(m, n)[..p - 1] + [v] + Listed(m, n)[p - 1..]
    ensures Dense(m', n + 1) && Look(m', IntKey(n + 2)) == Look(m, IntKey(n + 2))
  {
    InsertedListed(m, m', n, p, v);
    forall i: int | 1 <= i <= n + 1 ensures Look(m', IntKey(i)) != NilV {
      KeyOfInt(IntKey(i), i);
      KeyOfInt(IntKey(i), p);
      if i != p {
        var q := if i > p then i - 1 else i;
        assert Source(IntKey(i), p + 1, n + 1, -1) == IntKey(q);
        DenseAt(m, n, q);
      }
    }
    KeyOfInt(IntKey(n + 2), n + 2);
    KeyOfInt(IntKey(n + 2), p);
  }

  /** After a removal the table is shorter by exactly one, and its values are the old ones without
      the one removed. */
  lemma RemovalIsSequence(m: map<Value, Value>, m': map<Value, Value>, n: nat, p: int)
    requires Dense(m, n) && 1 <= p <= n && MovedDown(m, m', p, n)
    ensures Listed(m', n - 1) == Listed(m, n)[..p - 1] + Listed(m, n)[p..]
    ensures Dense(m', n - 1) && Look(m', IntKey(n)) == NilV
  {
    RemovedListed(m, m', n, p);
    forall i: int | 1 <= i <= n - 1 ensures Look(m', IntKey(i)) != NilV {
      KeyOfInt(IntKey(i), i);
      KeyOfInt(IntKey(i), n);
      var q := if i >= p then i + 1 else i;
      assert Source(IntKey(i), p, n - 1, 1) == IntKey(q);
      DenseAt(m, n, q);
    }
  }
}
