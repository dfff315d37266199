/** The pattern matcher as it runs: a capture record that is updated in place, copied for each
    attempt and put back when an attempt fails. */
module Matching {
  import opened Syntax
  import opened Patterns

  class Record {
    var captures: seq<Capture>

    constructor (captures: seq<Capture>)
      ensures this.captures == captures
    {
      this.captures := captures;
    }
  }

  // ---- scanning the pattern ----------------------------------------------------------------

  method FindClassEnd(p: string, start: nat, e: nat) returns (r: Option<nat>)
    requires start < e <= |p| && p[start] == '['
    ensures r == ClassEnd(p, start, e)
  {
    var cursor := start + 1;
    if cursor < e && p[cursor] == '^' {
      cursor := cursor + 1;
    }
    while cursor < e
      invariant ClassEndFrom(p, cursor, e) == ClassEnd(p, start, e)
      decreases e - cursor
    {
      if p[cursor] == '%' && cursor + 1 < e {
        cursor := cursor + 2;
      } else if p[cursor] == ']' {
        return Some(cursor + 1);
      } else {
        cursor := cursor + 1;
      }
    }
    r := None;
  }

  method MatchSet(v: char, p: string, start: nat, end: nat) returns (accepted: bool)
    requires start + 1 < end <= |p|
    ensures accepted == InSet(v, p, start, end)
  {
    var cursor, negative, matched := start + 1, false, false;
    if cursor < end && p[cursor] == '^' {
      negative := true;
      cursor := cursor + 1;
    }
    while cursor + 1 < end
      invariant (matched || InMembers(v, p, cursor, end - 1)) == InMembers(v, p, if negative then start + 2 else start + 1, end - 1)
      decreases end - cursor
    {
      if p[cursor] == '%' {
        if cursor + 1 >= end - 1 { break; }
        if InClass(v, p[cursor + 1]) {
          matched := true;
        }
        cursor := cursor + 2;
      } else if cursor + 2 < end - 1 && p[cursor + 1] == '-' {
        if p[cursor] <= v <= p[cursor + 2] {
          matched := true;
        }
        cursor := cursor + 3;
      } else {
        if v == p[cursor] {
          matched := true;
        }
        cursor := cursor + 1;
      }
    }
    accepted := if negative then !matched else matched;
  }

  /** Does the item at c accept v, and if so or if its width is plain, where does it end? */
  method MatchAtom(v: char, p: string, c: nat, e: nat) returns (accepted: bool, end: nat)
    requires c < e <= |p|
    ensures accepted == Accepts(v, p, c, e) && (accepted ==> AtomEnd(p, c, e) == Some(end))
  {
    end := c + 1;
    if p[c] == '.' { return true, c + 1; }
    if p[c] == '%' {
      if c + 1 >= e { return false, c; }
      return InClass(v, p[c + 1]), c + 2;
    }
    if p[c] == '[' {
      var close := FindClassEnd(p, c, e);
      if close.None? { return false, c; }
      accepted := MatchSet(v, p, c, close.value);
      return accepted, close.value;
    }
    accepted := v == p[c];
  }

  /** How many bytes the item accepts, and where it is taken to end. */
  method Measure(s: string, i: nat, p: string, c: nat, e: nat) returns (n: nat, h: Option<nat>)
    requires i <= |s| && c < e <= |p|
    ensures n == Extent(s, i, p, c, e) && h == SeenEnd(s, i, p, c, e)
  {
    hide Accepts, AtomEnd;
    var accepted, end := false, c;
    if i < |s| {
      accepted, end := MatchAtom(s[i], p, c, e);
    }
    if accepted {
      n := 1;
      h := Some(end);
      while accepted && i + n < |s|
        invariant 1 <= n && i + n <= |s| && (accepted ==> h == AtomEnd(p, c, e)) && h == AtomEnd(p, c, e)
        invariant Extent(s, i, p, c, e) == n + if accepted then Extent(s, i + n, p, c, e) else 0
        decreases accepted, |s| - n
      {
        accepted, end := MatchAtom(s[i + n], p, c, e);
        if accepted {
          h := Some(end);
          n := n + 1;
        }
      }
    } else {
      n := 0;
      accepted, end := MatchAtom('\0', p, c, e);
      if !accepted && p[c] == '[' {
        h := FindClassEnd(p, c, e);
        Closes(p, c, e);
      } else if p[c] == '%' {
        h := Some(c + 2);
      } else {
        h := Some(c + 1);
      }
    }
  }

  lemma Closes(p: string, c: nat, e: nat)
    requires c < e <= |p| && p[c] == '['
    ensures AtomEnd(p, c, e) == ClassEnd(p, c, e)
  {
  }

  method FindClose(p: string, start: nat, e: nat) returns (r: Option<nat>)
    requires e <= |p|
    ensures r == CloseFrom(p, start, e, 1)
  {
    var cursor, depth := start, 1;
    while cursor < e
      invariant depth > 0 && CloseFrom(p, cursor, e, depth) == CloseFrom(p, start, e, 1)
      decreases e - cursor
    {
      if p[cursor] == '%' && cursor + 1 < e {
        cursor := cursor + 2;
      } else if p[cursor] == '[' {
        var end := FindClassEnd(p, cursor, e);
        if end.None? { return None; }
        cursor := end.value;
      } else if p[cursor] == '(' {
        depth := depth + 1;
        cursor := cursor + 1;
      } else if p[cursor] == ')' {
        if depth == 1 { return Some(cursor); }
        depth := depth - 1;
        cursor := cursor + 1;
      } else {
        cursor := cursor + 1;
      }
    }
    r := None;
  }

  // ---- matching ----------------------------------------------------------------------------

  /** A match is reported with its captures in the record; a failure leaves the record as it was. */
  ghost predicate Reports(m: Match, ok: bool, end: nat, before: seq<Capture>, after: seq<Capture>) {
    if ok then m == Matched(end, after) else m.Unmatched? && after == before
  }

  method MatchFrom(s: string, i: nat, p: string, c: nat, e: nat, record: Record) returns (ok: bool, end: nat)
    requires i <= |s| && e <= |p|
    modifies record
    ensures Reports(MatchRange(s, i, p, c, e, old(record.captures)), ok, end, old(record.captures), record.captures)
    decreases e - c, 1
  {
    hide TryUp, TryDown, SeenEnd, Extent, CloseFrom;
    end := i;
    if c >= e {
      ok := true;
    } else if p[c] == '$' && c + 1 == e {
      ok := i == |s|;
    } else if p[c] == '(' {
      ok, end := MatchGroup(s, i, p, c, e, record);
    } else {
      var n, h := Measure(s, i, p, c, e);
      if h.None? { return false, i; }
      var q := QuantifierAt(p, h.value, e);
      if q == One {
        if n == 0 { return false, i; }
        ok, end := MatchFrom(s, i + 1, p, h.value, e, record);
      } else if Most(q, n) < Least(q) {
        ok := false;
      } else if q == Lazy {
        ok, end := MatchFewest(s, i, p, h.value + 1, e, record, Least(q), Most(q, n));
      } else {
        ok, end := MatchMost(s, i, p, h.value + 1, e, record, Least(q), Most(q, n));
      }
    }
  }

  method MatchGroup(s: string, i: nat, p: string, c: nat, e: nat, record: Record) returns (ok: bool, end: nat)
    requires i <= |s| && c < e <= |p| && p[c] == '('
    modifies record
    ensures Reports(MatchRange(s, i, p, c, e, old(record.captures)), ok, end, old(record.captures), record.captures)
    decreases e - c, 0
  {
    hide CloseFrom;
    var saved := record.captures;
    end := i;
    if |record.captures| >= CAPTURE_LIMIT { return false, i; }
    var close := FindClose(p, c + 1, e);
    if close.None? { return false, i; }
    var index := |record.captures|;
    record.captures := record.captures + [Capture(i, 0)];
    ok, end := MatchFrom(s, i, p, c + 1, close.value, record);
    if ok {
      record.captures := record.captures[index := Capture(i, end)];
      ok, end := MatchFrom(s, end, p, close.value + 1, e, record);
    }
    if !ok {
      record.captures := saved;
    }
  }

  /** Fewest repetitions first. */
  method MatchFewest(s: string, i: nat, p: string, c: nat, e: nat, record: Record, least: nat, most: nat)
    returns (ok: bool, end: nat)
    requires i + most <= |s| && e <= |p|
    modifies record
    ensures Reports(TryUp(s, i, p, c, e, old(record.captures), least, most), ok, end, old(record.captures), record.captures)
    decreases e - c, 2
  {
    hide MatchRange;
    ok, end := false, i;
    var count := least;
    while !ok && count <= most
      invariant if ok then TryUp(s, i, p, c, e, old(record.captures), least, most) == Matched(end, record.captures)
                else record.captures == old(record.captures)
                     && TryUp(s, i, p, c, e, record.captures, count, most) == TryUp(s, i, p, c, e, record.captures, least, most)
      decreases !ok, most + 1 - count
    {
      var trial := new Record(record.captures);
      ok, end := MatchFrom(s, i + count, p, c, e, trial);
      if ok {
        record.captures := trial.captures;
      } else {
        count := count + 1;
      }
    }
  }

  /** Most repetitions first. */
  method MatchMost(s: string, i: nat, p: string, c: nat, e: nat, record: Record, least: nat, most: nat)
    returns (ok: bool, end: nat)
    requires i + most <= |s| && e <= |p| && least <= most
    modifies record
    ensures Reports(TryDown(s, i, p, c, e, old(record.captures), least, most), ok, end, old(record.captures), record.captures)
    decreases e - c, 2
  {
    hide MatchRange;
    ok, end := false, i;
    var count: nat := most + 1;
    while !ok && count > least
      invariant count <= most + 1
      invariant if ok then TryDown(s, i, p, c, e, old(record.captures), least, most) == Matched(end, record.captures)
                else record.captures == old(record.captures)
                     && TryDown(s, i, p, c, e, record.captures, least, most)
                        == if count == 0 then Unmatched else TryDown(s, i, p, c, e, record.captures, least, count - 1)
      decreases !ok, count
    {
      count := count - 1;
      var trial := new Record(record.captures);
      ok, end := MatchFrom(s, i + count, p, c, e, trial);
      if ok {
        record.captures := trial.captures;
      }
    }
  }

  // ---- searching ---------------------------------------------------------------------------

  method Find(s: string, start: nat, p: string) returns (f: Found)
    ensures f == Search(s, start, p)
  {
    hide MatchRange;
    f := NotFound;
    if start > |s| { return; }
    var anchored := Anchored(p);
    var position := if anchored then 0 else start;
    while position <= |s| && (!anchored || position == 0)
      invariant !anchored ==> start <= position <= |s| + 1 && SearchFrom(s, position, p) == Search(s, start, p)
      invariant anchored && position > 0 ==> Search(s, start, p) == NotFound
      decreases |s| + 1 - position
    {
      var trial := new Record([]);
      var ok, end := MatchFrom(s, position, p, if anchored then 1 else 0, |p|, trial);
      if ok { return Found(position, end, trial.captures); }
      position := position + 1;
    }
  }
}
