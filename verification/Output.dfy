/** Result records staged while a Book runs. */
module Output {
  import opened Syntax

  const RECORD_LIMIT: nat := 256
  const KEY_BLOCK: nat := 64

  /** The sizes of a value's buffer and of everything staged, which the rest of the program sets. */
  datatype Limits = Limits(valueBlock: nat, stagedBytes: nat)

  type ByteString = s: string | forall k :: 0 <= k < |s| ==> s[k] < '\U{100}'

  datatype Color = Default | Green | Red | Yellow | Grey

  function ColorName(c: Color): string {
    match c
    case Default => "default" case Green => "green" case Red => "red" case Yellow => "yellow" case Grey => "grey"
  }

  function ParseColor(t: string): (c: Option<Color>)
    ensures c.Some? ==> ColorName(c.value) == t
  {
    if t == "default" then Some(Default)
    else if t == "green" then Some(Green)
    else if t == "red" then Some(Red)
    else if t == "yellow" then Some(Yellow)
    else if t == "grey" then Some(Grey)
    else None
  }

  lemma ColorReads(c: Color)
    ensures ParseColor(ColorName(c)) == Some(c) && 3 <= |ColorName(c)| <= 7
    ensures forall k :: 0 <= k < |ColorName(c)| ==> 'a' <= ColorName(c)[k] <= 'z'
  {
    assert ColorName(c)[0] == match c case Default => 'd' case Green => 'g' case Red => 'r' case Yellow => 'y' case Grey => 'g';
  }

  /** Keys stay inside the grammar of the file they are written to. */
  predicate KeyValid(key: string) {
    0 < |key| < KEY_BLOCK
    && forall k :: 0 <= k < |key| ==> key[k] >= '\U{21}' && key[k] != '\U{7F}' && key[k] != ':' && key[k] != '\\'
  }

  predicate ValueValid(value: string, limits: Limits) {
    |value| < limits.valueBlock
    && forall k :: 0 <= k < |value| ==>
         (value[k] >= ' ' || value[k] == '\t' || value[k] == '\r' || value[k] == '\n') && value[k] != '\U{7F}'
  }

  datatype Record = Record(key: ByteString, value: ByteString, color: Color)

  predicate RecordValid(r: Record, limits: Limits) { KeyValid(r.key) && ValueValid(r.value, limits) }

  function Bytes(rs: seq<Record>): nat {
    if rs == [] then 0 else Bytes(rs[..|rs| - 1]) + |rs[|rs| - 1].key| + |rs[|rs| - 1].value|
  }

  /** What a stage can hold: valid records, not too many, and not too much in all. */
  predicate Stageable(rs: seq<Record>, limits: Limits) {
    |rs| <= RECORD_LIMIT && Bytes(rs) <= limits.stagedBytes && forall k :: 0 <= k < |rs| ==> RecordValid(rs[k], limits)
  }

  datatype Status = Staged | Refused | LimitReached

  /** Whether there is a stage yet, the staged records, the room for them, and how many bytes of keys
      and values there are. */
  datatype Staging = Staging(made: bool, records: seq<Record>, capacity: nat, stagedBytes: nat)

  const NOTHING_STAGED: Staging := Staging(false, [], 0, 0)

  /** Whether memory is granted for the stage itself, and for more room in it. */
  datatype Grants = Grants(stage: bool, room: bool)

  datatype Emission = Emission(status: Status, after: Staging)

  /** The room doubles when it runs out, up to the limit. */
  function NextCapacity(capacity: nat): nat {
    var next := if capacity > 0 then capacity * 2 else 8;
    if next > RECORD_LIMIT then RECORD_LIMIT else next
  }

  /** One record is staged, refused because it is not valid or there is no memory, or over a limit.
      The stage is made when the first valid record comes. */
  function Emitted(t: Staging, r: Record, limits: Limits, grants: Grants): Emission {
    if !RecordValid(r, limits) || !(t.made || grants.stage) then Emission(Refused, t)
    else
      var m := t.(made := true);
      if |t.records| >= RECORD_LIMIT || t.stagedBytes + |r.key| + |r.value| > limits.stagedBytes then Emission(LimitReached, m)
      else if |t.records| >= t.capacity && !grants.room then Emission(Refused, m)
      else
        Emission(Staged, Staging(true, t.records + [r], if |t.records| < t.capacity then t.capacity else NextCapacity(t.capacity),
                                 t.stagedBytes + |r.key| + |r.value|))
  }

  /** The stage holds what can be staged, and its counters say how much that is. */
  predicate Holding(t: Staging, limits: Limits) {
    Stageable(t.records, limits) && t.stagedBytes == Bytes(t.records) && |t.records| <= t.capacity <= RECORD_LIMIT
    && (!t.made ==> t.records == [])
  }

  /** Emitting keeps that, never takes a record back, and finds room whenever the limits allow it
      and memory is granted. */
  lemma EmittedHolds(t: Staging, r: Record, limits: Limits, grants: Grants)
    requires Holding(t, limits)
    ensures var e := Emitted(t, r, limits, grants);
      && Holding(e.after, limits) && t.records <= e.after.records
      && (e.status == Staged <==> e.after.records == t.records + [r])
      && (e.status != Staged ==> e.after.records == t.records)
      && ((t.made || grants.stage) && (|t.records| < t.capacity || grants.room) ==>
            && (e.status == Staged <==> Stageable(t.records + [r], limits))
            && (e.status == LimitReached <==> RecordValid(r, limits) && !Stageable(t.records + [r], limits)))
  {
    hide RecordValid, Stageable, Bytes;
    OneMore(t.records, r, limits);
  }

  /** When one more record can be staged. */
  lemma OneMore(rs: seq<Record>, r: Record, limits: Limits)
    requires Stageable(rs, limits)
    ensures |rs| <= RECORD_LIMIT && Bytes(rs + [r]) == Bytes(rs) + |r.key| + |r.value|
    ensures Stageable(rs + [r], limits)
       <==> RecordValid(r, limits) && |rs| < RECORD_LIMIT && Bytes(rs) + |r.key| + |r.value| <= limits.stagedBytes
  {
    hide RecordValid;
    var more := rs + [r];
    assert more[..|more| - 1] == rs && more[|rs|] == r;
    assert forall k :: 0 <= k < |rs| ==> more[k] == rs[k];
  }

  class Stage {
    const limits: Limits
    var made: bool
    var records: seq<Record>
    var capacity: nat
    var stagedBytes: nat

    constructor (limits: Limits)
      ensures this.limits == limits && Now() == NOTHING_STAGED
    {
      this.limits := limits;
      made, records, capacity, stagedBytes := false, [], 0, 0;
    }

    function Now(): Staging
      reads this
    {
      Staging(made, records, capacity, stagedBytes)
    }

    /** Room for one more record, if memory is granted for it. */
    method Reserve(granted: bool) returns (ok: bool)
      modifies `capacity
      ensures ok == (|records| < old(capacity) || granted)
      ensures capacity == if ok && |records| >= old(capacity) then NextCapacity(old(capacity)) else old(capacity)
    {
      if |records| < capacity { return true; }
      var next := if capacity > 0 then capacity * 2 else 8;
      if next > RECORD_LIMIT {
        next := RECORD_LIMIT;
      }
      ok := granted;
      if ok {
        capacity := next;
      }
    }

    /** Stage one record. */
    method Emit(key: ByteString, value: ByteString, color: Color, grants: Grants) returns (status: Status)
      modifies this
      ensures Emission(status, Now()) == Emitted(old(Now()), Record(key, value, color), limits, grants)
    {
      var r := Record(key, value, color);
      if !KeyValid(key) || !ValueValid(value, limits) { return Refused; }
      if !made {
        if !grants.stage { return Refused; }
        made := true;
      }
      if |records| >= RECORD_LIMIT || stagedBytes + |key| + |value| > limits.stagedBytes { return LimitReached; }
      var ok := Reserve(grants.room);
      if !ok { return Refused; }
      records := records + [r];
      stagedBytes := stagedBytes + |key| + |value|;
      status := Staged;
    }
  }
}
