/** Tables are finite maps: storing, removing and growing act on the map of keys to values, and the
    keys 1, 2, ... up to the length are a sequence. */
module Tables {
  import opened Syntax
  import opened Values
  import opened Heap
  import opened Invariants

  // ---- rows as a map -----------------------------------------------------------------------

  /** The map that rows stand for; the first row of a key counts. */
  function Contents(rows: seq<Row>): map<Value, Value> {
    if rows == [] then map[] else Contents(rows[1..])[rows[0].key := rows[0].value]
  }

  /** The value at a key; nil if there is none. */
  function Look(m: map<Value, Value>, k: Value): Value { if k in m then m[k] else NilV }

  /** m with v at k; nil means no entry. */
  function Updated(m: map<Value, Value>, k: Value, v: Value): map<Value, Value> { if v == NilV then m - {k} else m[k := v] }

  lemma {:induction false} ContentsAt(rows: seq<Row>, k: Value)
    ensures k in Contents(rows) <==> HasKey(rows, k)
    ensures RowValue(rows, k) == Look(Contents(rows), k)
    decreases rows
  {
    if rows != [] && rows[0].key != k {
      ContentsAt(rows[1..], k);
    }
  }

  predicate KeysDiffer(rows: seq<Row>) { forall i, j :: 0 <= i < j < |rows| ==> rows[i].key != rows[j].key }

  lemma NotAgain(rows: seq<Row>)
    requires KeysDiffer(rows) && rows != []
    ensures !HasKey(rows[1..], rows[0].key) && KeysDiffer(rows[1..])
  {
    var rest := rows[1..];
    forall j | 0 <= j < |rest| ensures rest[j].key != rows[0].key {
      assert rest[j] == rows[j + 1];
    }
  }

  lemma {:induction false} ContentsCount(rows: seq<Row>)
    requires KeysDiffer(rows)
    ensures |Contents(rows)| == |rows|
    decreases rows
  {
    if rows != [] {
      var rest := rows[1..];
      ContentsCount(rest);
      NotAgain(rows);
      ContentsAt(rest, rows[0].key);
      assert Contents(rows).Keys == Contents(rest).Keys + {rows[0].key};
    }
  }

  lemma {:induction false} RowAppended(rows: seq<Row>, row: Row)
    requires !HasKey(rows, row.key)
    ensures Contents(rows + [row]) == Contents(rows)[row.key := row.value]
    decreases rows
  {
    if rows == [] {
      assert ([] + [row])[1..] == [];
    } else {
      RowAppended(rows[1..], row);
      assert (rows + [row])[1..] == rows[1..] + [row];
    }
  }

  lemma {:induction false} RowReplaced(rows: seq<Row>, k: Value, v: Value)
    requires HasKey(rows, k)
    ensures Contents(rows[RowOf(rows, k) := Row(k, v)]) == Contents(rows)[k := v]
    decreases rows
  {
    var i := RowOf(rows, k);
    if i == 0 {
      assert rows[0 := Row(k, v)][1..] == rows[1..];
    } else {
      RowReplaced(rows[1..], k, v);
      assert rows[i := Row(k, v)][1..] == rows[1..][i - 1 := Row(k, v)];
    }
  }

  lemma {:induction false} RowRemoved(rows: seq<Row>, k: Value)
    requires HasKey(rows, k) && KeysDiffer(rows)
    ensures Contents(Without(rows, RowOf(rows, k))) == Contents(rows) - {k}
    decreases rows
  {
    hide KeysDiffer;
    NotAgain(rows);
    var i := RowOf(rows, k);
    if i == 0 {
      assert Without(rows, 0) == rows[1..];
      ContentsAt(rows[1..], k);
    } else {
      RowRemoved(rows[1..], k);
      assert Without(rows, i)[1..] == Without(rows[1..], i - 1);
    }
  }

  // ---- the operations ----------------------------------------------------------------------

  /** Only table t, its counter, the allocations and the fault may differ. */
  predicate OnlyTable(s: State, s': State, t: nat) {
    && t < |s.tables| == |s'.tables|
    && (forall u :: 0 <= u < |s.tables| && u != t ==> s'.tables[u] == s.tables[u])
    && s' == s.(tables := s'.tables, entryCount := s'.entryCount, allocations := s'.allocations, fault := s'.fault)
  }

  function MapAt(s: State, t: nat): map<Value, Value> { Contents(RowsAt(s, t)) }

  /** There is room for one more row in a table. */
  predicate HasRoom(w: World, s: State, t: nat) { t < |s.tables| && s.entryCount < ENTRY_LIMIT && ReserveRow(w, s, t).ok }

  /** Storing updates the map, or fails and leaves it as it was; it fails exactly for a key that is
      not allowed, and for a value at a new key when there is no room. */
  lemma SetIsUpdate(w: World, s: State, t: nat, k: Value, v: Value)
    requires Inv(s) && t < |s.tables|
    ensures var d := TableSet(w, s, t, k, v);
      && OnlyTable(s, d.s, t)
      && MapAt(d.s, t) == (if d.ok then Updated(MapAt(s, t), k, v) else MapAt(s, t))
      && (d.ok <==> KeyFault(k).None? && (v == NilV || k in MapAt(s, t) || HasRoom(w, s, t)))
  {
    hide ScopesOk, ClosuresOk, CountsOk, Contents, ReserveRow;
    var rows := s.tables[t].rows;
    assert RowsOk(rows, |s.tables|, |s.closures|);
    ContentsAt(rows, k);
    if KeyFault(k).None? {
      if HasKey(rows, k) {
        if v == NilV {
          RowRemoved(rows, k);
        } else {
          RowReplaced(rows, k, v);
        }
      } else if v == NilV {
        assert Contents(rows) - {k} == Contents(rows);
      } else if s.entryCount < ENTRY_LIMIT {
        ReserveKeeps(w, s, t);
        RowAppended(rows, Row(k, v));
      }
    }
  }

  lemma ReserveKeeps(w: World, s: State, t: nat)
    requires t < |s.tables|
    ensures var r := ReserveRow(w, s, t); OnlyTable(s, r.s, t) && r.s.tables[t].rows == s.tables[t].rows
  {
  }

  lemma RemoveIsUpdate(s: State, t: nat, k: Value)
    requires Inv(s) && t < |s.tables|
    ensures var d := TableRemove(s, t, k);
      && OnlyTable(s, d.s, t) && d.ok == KeyFault(k).None?
      && MapAt(d.s, t) == (if d.ok then MapAt(s, t) - {k} else MapAt(s, t))
  {
    hide ScopesOk, ClosuresOk, CountsOk, Contents;
    var rows := s.tables[t].rows;
    assert RowsOk(rows, |s.tables|, |s.closures|);
    ContentsAt(rows, k);
    if KeyFault(k).None? {
      if HasKey(rows, k) {
        RowRemoved(rows, k);
      } else {
        assert Contents(rows) - {k} == Contents(rows);
      }
    }
  }

  /** In a sound heap a table has as many rows as its map has entries, and no entry is nil. */
  lemma MapIsSound(s: State, t: nat)
    requires Inv(s) && t < |s.tables|
    ensures |MapAt(s, t)| == |s.tables[t].rows| <= ENTRY_LIMIT
    ensures forall k :: k in MapAt(s, t) ==> MapAt(s, t)[k] != NilV && KeyFault(k).None?
  {
    hide ScopesOk, ClosuresOk;
    var rows := s.tables[t].rows;
    assert RowsOk(rows, |s.tables|, |s.closures|);
    ContentsCount(rows);
    RowsOfTotal(s.tables, t);
    forall k | k in Contents(rows) ensures Contents(rows)[k] != NilV && KeyFault(k).None? {
      ContentsAt(rows, k);
      assert RowOk(rows[RowOf(rows, k)], |s.tables|, |s.closures|);
    }
  }

  // ---- the length --------------------------------------------------------------------------

  ghost predicate Dense(m: map<Value, Value>, n: nat) { forall i: int :: 1 <= i <= n ==> Look(m, IntKey(i)) != NilV }

  lemma {:induction false} BorderFromIsLeast(rows: seq<Row>, n: nat)
    requires forall i: int :: 1 <= i <= n ==> RowValue(rows, IntKey(i)) != NilV
    ensures forall i: int :: 1 <= i <= BorderFrom(rows, n) ==> RowValue(rows, IntKey(i)) != NilV
    ensures RowValue(rows, IntKey(BorderFrom(rows, n) + 1)) == NilV
    decreases |rows| - n
  {
    if n < |rows| {
      if RowValue(rows, IntKey(n + 1)) != NilV {
        BorderFromIsLeast(rows, n + 1);
      }
    } else if RowValue(rows, IntKey(n + 1)) != NilV {
      assert Consecutive(rows, n + 1) by {
        forall i | 1 <= i <= n + 1 ensures HasKey(rows, IntKey(i)) {
          assert RowValue(rows, IntKey(i)) != NilV;
        }
      }
      ConsecutiveFits(rows, n + 1);
    }
  }

  lemma DenseUpTo(m: map<Value, Value>, n: nat, b: nat)
    requires Dense(m, n) && Look(m, IntKey(b + 1)) == NilV
    ensures n <= b
  {
  }

  /** The length of a table is the least n such that n + 1 has no value. */
  lemma BorderIsLeast(rows: seq<Row>, n: nat)
    ensures n == Border(rows) <==> Dense(Contents(rows), n) && Look(Contents(rows), IntKey(n + 1)) == NilV
  {
    hide Contents;
    var b := Border(rows);
    BorderFromIsLeast(rows, 0);
    assert Dense(Contents(rows), b) by {
      forall i: int | 1 <= i <= b ensures Look(Contents(rows), IntKey(i)) != NilV {
        ContentsAt(rows, IntKey(i));
        assert RowValue(rows, IntKey(i)) != NilV;
      }
    }
    ContentsAt(rows, IntKey(b + 1));
    ContentsAt(rows, IntKey(n + 1));
    if Dense(Contents(rows), n) && Look(Contents(rows), IntKey(n + 1)) == NilV {
      DenseUpTo(Contents(rows), n, b);
      DenseUpTo(Contents(rows), b, n);
    }
  }

  // ---- tables as sequences -----------------------------------------------------------------

  /** The values at 1, 2, ..., n. */
  function Listed(m: map<Value, Value>, n: nat): (vs: seq<Value>)
    ensures |vs| == n && forall i :: 0 <= i < n ==> vs[i] == Look(m, IntKey(i + 1))
  {
    seq(n, i requires 0 <= i < n => Look(m, IntKey(i + 1)))
  }

  /** The integer that a key is, if it is one. */
  function KeyInt(k: Value): Option<int> { if k.NumV? && k.num.Floor as real == k.num then Some(k.num.Floor) else None }

  lemma IntKeyIs(i: int)
    ensures KeyInt(IntKey(i)) == Some(i)
  {
  }

  predicate KeyWithin(k: Value, lo: int, hi: int) { KeyInt(k).Some? && lo <= KeyInt(k).value <= hi }

  /** The key whose value a move by one place brings to k, when the keys lo to hi are filled from
      the keys above them (step = 1) or below them (step = -1). */
  function Source(k: Value, lo: int, hi: int, step: int): Value {
    if KeyWithin(k, lo, hi) then IntKey(KeyInt(k).value + step) else k
  }

  /** The keys lo to hi have been filled from their neighbours and, but for the hole, nothing else
      has changed. */
  ghost predicate Moved(m: map<Value, Value>, m': map<Value, Value>, lo: int, hi: int, step: int, hole: Option<Value>) {
    forall k {:trigger Look(m', k)} :: Some(k) != hole ==> Look(m', k) == Look(m, Source(k, lo, hi, step))
  }

  /** The values from p to n have moved up to make room at p. */
  ghost predicate MovedUp(m: map<Value, Value>, m': map<Value, Value>, p: int, n: int) {
    Moved(m, m', p + 1, n + 1, -1, Some(IntKey(p)))
  }

  /** The values after p have moved down, and there is none at n any more. */
  ghost predicate MovedDown(m: map<Value, Value>, m': map<Value, Value>, p: int, n: int) {
    Moved(m, m', p, n - 1, 1, Some(IntKey(n))) && Look(m', IntKey(n)) == NilV
  }

  /** Inserting v at p moves the values from p to n up by one, whatever other keys there are. */
  lemma InsertedListed(m: map<Value, Value>, m': map<Value, Value>, n: nat, p: int, v: Value)
    requires 1 <= p <= n + 1 && MovedUp(m, m', p, n) && Look(m', IntKey(p)) == v
    ensures Listed(m', n + 1) == Listed(m, n)[..p - 1] + [v] + Listed(m, n)[p - 1..]
  {
    var vs := Listed(m, n)[..p - 1] + [v] + Listed(m, n)[p - 1..];
    forall i | 0 <= i < n + 1 ensures Listed(m', n + 1)[i] == vs[i] {
      IntKeyIs(i + 1);
      IntKeyIs(p);
      if i < p - 1 {
        assert vs[i] == Listed(m, n)[i] == Look(m, IntKey(i + 1));
        assert Look(m', IntKey(i + 1)) == Look(m, IntKey(i + 1));
      } else if i > p - 1 {
        assert vs[i] == Listed(m, n)[i - 1] == Look(m, IntKey(i));
        assert Look(m', IntKey(i + 1)) == Look(m, IntKey(i));
      }
    }
  }

  lemma RemovedListed(m: map<Value, Value>, m': map<Value, Value>, n: nat, p: int)
    requires 1 <= p <= n && MovedDown(m, m', p, n)
    ensures Listed(m', n - 1) == Listed(m, n)[..p - 1] + Listed(m, n)[p..]
  {
    var vs := Listed(m, n)[..p - 1] + Listed(m, n)[p..];
    forall i | 0 <= i < n - 1 ensures Listed(m', n - 1)[i] == vs[i] {
      IntKeyIs(i + 1);
      IntKeyIs(n);
      if i < p - 1 {
        assert vs[i] == Listed(m, n)[i] == Look(m, IntKey(i + 1));
        assert Look(m', IntKey(i + 1)) == Look(m, IntKey(i + 1));
      } else {
        assert vs[i] == Listed(m, n)[i + 1] == Look(m, IntKey(i + 2));
        assert Look(m', IntKey(i + 1)) == Look(m, IntKey(i + 2));
      }
    }
  }
}
