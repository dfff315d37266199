/** How a file is shown: records with the same key together, in the order of their first record. */
module Rendered {
  import opened Syntax
  import opened Output

  /** The positions of the records with a key, from i on. */
  function Group(rs: seq<Record>, key: string, i: nat): (g: seq<nat>)
    ensures forall k :: 0 <= k < |g| ==> i <= g[k] < |rs| && rs[g[k]].key == key
    decreases |rs| - i
  {
    if i >= |rs| then []
    else if rs[i].key == key then [i] + Group(rs, key, i + 1)
    else Group(rs, key, i + 1)
  }

  /** Is the i-th record the first with its key? */
  predicate IsFirst(rs: seq<Record>, i: nat)
    requires i < |rs|
  {
    forall j :: 0 <= j < i ==> rs[j].key != rs[i].key
  }

  /** The order in which records are shown, from the i-th on. */
  function Order(rs: seq<Record>, i: nat): seq<nat>
    decreases |rs| - i
  {
    if i >= |rs| then []
    else (if IsFirst(rs, i) then Group(rs, rs[i].key, i) else []) + Order(rs, i + 1)
  }

  /** How often x occurs in s. */
  function Times(s: seq<nat>, x: nat): nat { if s == [] then 0 else (if s[0] == x then 1 else 0) + Times(s[1..], x) }

  lemma {:induction false} TimesSum(a: seq<nat>, b: seq<nat>, x: nat)
    ensures Times(a + b, x) == Times(a, x) + Times(b, x)
    decreases a
  {
    if a == [] {
      assert a + b == b;
    } else {
      TimesSum(a[1..], b, x);
      assert (a + b)[1..] == a[1..] + b;
    }
  }

  lemma {:induction false} GroupHas(rs: seq<Record>, key: string, i: nat, x: nat)
    ensures Times(Group(rs, key, i), x) == if i <= x < |rs| && rs[x].key == key then 1 else 0
    decreases |rs| - i
  {
    hide Times;
    NoTimes(x);
    if i < |rs| {
      GroupHas(rs, key, i + 1, x);
      TimesFirst(i, Group(rs, key, i + 1), x);
    }
  }

  lemma TimesFirst(i: nat, s: seq<nat>, x: nat)
    ensures Times([i] + s, x) == (if i == x then 1 else 0) + Times(s, x)
  {
    assert ([i] + s)[1..] == s;
  }

  lemma NoTimes(x: nat)
    ensures Times([], x) == 0
  {
  }

  /** The first record with the key of the x-th. */
  function FirstOf(rs: seq<Record>, x: nat, i: nat): (f: nat)
    requires i <= x < |rs| && forall j :: 0 <= j < i ==> rs[j].key != rs[x].key
    ensures i <= f <= x && rs[f].key == rs[x].key && IsFirst(rs, f)
    decreases x - i
  {
    if rs[i].key == rs[x].key then i else FirstOf(rs, x, i + 1)
  }

  lemma OneFirst(rs: seq<Record>, i: nat, f: nat)
    requires i < |rs| && f < |rs| && IsFirst(rs, i) && IsFirst(rs, f) && rs[i].key == rs[f].key
    ensures i == f
  {
  }

  lemma {:induction false} OrderHas(rs: seq<Record>, i: nat, x: nat)
    requires x < |rs|
    ensures Times(Order(rs, i), x) == if i <= FirstOf(rs, x, 0) then 1 else 0
    decreases |rs| - i
  {
    hide Group, Times, IsFirst;
    var f := FirstOf(rs, x, 0);
    if i < |rs| {
      OrderHas(rs, i + 1, x);
      GroupHas(rs, rs[i].key, i, x);
      TimesSum(if IsFirst(rs, i) then Group(rs, rs[i].key, i) else [], Order(rs, i + 1), x);
      NoTimes(x);
      if IsFirst(rs, i) && rs[i].key == rs[x].key {
        OneFirst(rs, i, f);
      }
    } else {
      NoTimes(x);
    }
  }

  /** Every record is shown exactly once. */
  lemma EachShownOnce(rs: seq<Record>, x: nat)
    ensures Times(Order(rs, 0), x) == if x < |rs| then 1 else 0
  {
    hide Order, Times;
    if x < |rs| {
      OrderHas(rs, 0, x);
    } else {
      NothingElse(rs, 0, x);
    }
  }

  lemma {:induction false} NothingElse(rs: seq<Record>, i: nat, x: nat)
    requires x >= |rs|
    ensures Times(Order(rs, i), x) == 0
    decreases |rs| - i
  {
    hide Group, Times, IsFirst;
    NoTimes(x);
    if i < |rs| {
      NothingElse(rs, i + 1, x);
      GroupHas(rs, rs[i].key, i, x);
      TimesSum(if IsFirst(rs, i) then Group(rs, rs[i].key, i) else [], Order(rs, i + 1), x);
    }
  }

  lemma {:induction false} GroupRises(rs: seq<Record>, key: string, i: nat, a: nat, b: nat)
    requires a < b < |Group(rs, key, i)|
    ensures Group(rs, key, i)[a] < Group(rs, key, i)[b]
    decreases |rs| - i
  {
    if rs[i].key != key {
      GroupRises(rs, key, i + 1, a, b);
    } else if a > 0 {
      GroupRises(rs, key, i + 1, a - 1, b - 1);
    }
  }

  lemma {:induction false} OrderFrom(rs: seq<Record>, i: nat, a: nat)
    requires a < |Order(rs, i)|
    ensures Order(rs, i)[a] < |rs| && FirstOf(rs, Order(rs, i)[a], 0) >= i
    decreases |rs| - i
  {
    hide Group, IsFirst;
    var g := if IsFirst(rs, i) then Group(rs, rs[i].key, i) else [];
    if a < |g| {
      OneFirst(rs, i, FirstOf(rs, g[a], 0));
    } else {
      OrderFrom(rs, i + 1, a - |g|);
    }
  }

  /** A record is shown before another exactly if the first record with its key comes before the first one
      with the other's, or the keys are the same and it comes before the other. */
  lemma {:induction false} ShownInOrder(rs: seq<Record>, i: nat, a: nat, b: nat)
    requires a < b < |Order(rs, i)|
    ensures var x, y := Order(rs, i)[a], Order(rs, i)[b];
      && x < |rs| && y < |rs|
      && (FirstOf(rs, x, 0) < FirstOf(rs, y, 0) || (rs[x].key == rs[y].key && x < y))
    decreases |rs| - i
  {
    hide Group, IsFirst;
    var g := if IsFirst(rs, i) then Group(rs, rs[i].key, i) else [];
    if b < |g| {
      GroupRises(rs, rs[i].key, i, a, b);
    } else if a < |g| {
      OneFirst(rs, i, FirstOf(rs, g[a], 0));
      OrderFrom(rs, i + 1, b - |g|);
    } else {
      ShownInOrder(rs, i + 1, a - |g|, b - |g|);
    }
  }

  // ---- the marking loops -------------------------------------------------------------------

  /** One of the first i records has the key of the x-th. */
  predicate Shown(rs: seq<Record>, i: nat, x: nat)
    requires i <= |rs| && x < |rs|
  {
    exists j :: 0 <= j < i && rs[j].key == rs[x].key
  }

  lemma ShownNext(rs: seq<Record>, i: nat)
    requires i < |rs|
    ensures forall x :: 0 <= x < |rs| ==> Shown(rs, i + 1, x) == (Shown(rs, i, x) || rs[x].key == rs[i].key)
    ensures Shown(rs, i, i) == !IsFirst(rs, i)
    ensures forall x :: 0 <= x < |rs| && rs[x].key == rs[i].key ==> Shown(rs, i, x) == Shown(rs, i, i)
  {
    forall x | 0 <= x < |rs| ensures Shown(rs, i + 1, x) == (Shown(rs, i, x) || rs[x].key == rs[i].key) {
      if rs[x].key == rs[i].key {
        assert rs[i].key == rs[x].key;
      }
    }
  }

  /** Show all records with the key of the i-th, none of which has been shown, and mark them. */
  method ShowGroup(rs: seq<Record>, i: nat, rendered: array<bool>) returns (group: seq<nat>)
    requires i < |rs| == rendered.Length
    requires forall x :: i <= x < |rs| && rs[x].key == rs[i].key ==> !rendered[x]
    modifies rendered
    ensures group == Group(rs, rs[i].key, i)
    ensures forall x :: 0 <= x < |rs| ==> rendered[x] == (old(rendered[x]) || (i <= x && rs[x].key == rs[i].key))
  {
    group := [];
    var j := i;
    while j < |rs|
      invariant i <= j <= |rs| && group + Group(rs, rs[i].key, j) == Group(rs, rs[i].key, i)
      invariant forall x :: 0 <= x < |rs| ==> rendered[x] == (old(rendered[x]) || (i <= x < j && rs[x].key == rs[i].key))
    {
      if !rendered[j] && rs[j].key == rs[i].key {
        rendered[j] := true;
        assert group + ([j] + Group(rs, rs[i].key, j + 1)) == group + [j] + Group(rs, rs[i].key, j + 1);
        group := group + [j];
      }
      j := j + 1;
    }
  }

  /** The marking loops show the records in that order: a record that has been shown with an earlier
      one of its key is passed over. */
  method Render(rs: seq<Record>) returns (shown: seq<nat>)
    ensures shown == Order(rs, 0)
  {
    hide Group, Shown, IsFirst;
    var rendered := new bool[|rs|](_ => false);
    shown := [];
    NoneShown(rs);
    var i := 0;
    while i < |rs|
      invariant i <= |rs| && shown + Order(rs, i) == Order(rs, 0)
      invariant forall x :: 0 <= x < |rs| ==> rendered[x] == Shown(rs, i, x)
    {
      ShownNext(rs, i);
      ghost var sofar := shown;
      if !rendered[i] {
        var group := ShowGroup(rs, i, rendered);
        AlreadyShown(rs, i);
        assert sofar + (group + Order(rs, i + 1)) == sofar + group + Order(rs, i + 1);
        shown := shown + group;
      } else {
        assert [] + Order(rs, i + 1) == Order(rs, i + 1);
      }
      i := i + 1;
    }
  }

  lemma NoneShown(rs: seq<Record>)
    ensures forall x :: 0 <= x < |rs| ==> !Shown(rs, 0, x)
  {
  }

  /** A record before the first of its key has another key. */
  lemma AlreadyShown(rs: seq<Record>, i: nat)
    requires i < |rs| && IsFirst(rs, i)
    ensures forall x :: 0 <= x < i ==> rs[x].key != rs[i].key
  {
  }
}
