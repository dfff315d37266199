/** The pattern language of the string library: what a byte class, a set and an item accept, and
    the recursive matcher as a function. */
module Patterns {
  import opened Syntax

  const CAPTURE_LIMIT: nat := 16

  // ---- classes and sets --------------------------------------------------------------------

  predicate IsUpper(c: char) { 'A' <= c <= 'Z' }

  predicate IsLower(c: char) { 'a' <= c <= 'z' }

  predicate IsDigit(c: char) { '0' <= c <= '9' }

  predicate IsAlnum(c: char) { IsUpper(c) || IsLower(c) || IsDigit(c) }

  function ToLower(c: char): char { if IsUpper(c) then (c as int + 32) as char else c }

  /** A class letter; an upper-case letter stands for the complement. */
  predicate InClass(v: char, name: char) {
    var r :=
      match ToLower(name)
      case 'a' => IsUpper(v) || IsLower(v)
      case 'c' => v < ' ' || v == '\U{7F}'
      case 'd' => IsDigit(v)
      case 'l' => IsLower(v)
      case 'p' => ' ' < v < '\U{7F}' && !IsAlnum(v)
      case 's' => v == ' ' || '\t' <= v <= '\r'
      case 'u' => IsUpper(v)
      case 'w' => IsAlnum(v)
      case 'x' => IsDigit(v) || 'a' <= v <= 'f' || 'A' <= v <= 'F'
      case 'z' => v == '\0'
      case _ => v == name;
    if IsUpper(name) then !r else r
  }

  /** Where a set that opens at `start` ends, looking from `c` on. */
  function ClassEndFrom(p: string, c: nat, e: nat): (r: Option<nat>)
    requires e <= |p|
    ensures r.Some? ==> c < r.value <= e && p[r.value - 1] == ']'
    decreases e - c
  {
    if c >= e then None
    else if p[c] == '%' && c + 1 < e then ClassEndFrom(p, c + 2, e)
    else if p[c] == ']' then Some(c + 1)
    else ClassEndFrom(p, c + 1, e)
  }

  /** The position after the bracket that closes the set at `start`. */
  function ClassEnd(p: string, start: nat, e: nat): (r: Option<nat>)
    requires start < e <= |p|
    ensures r.Some? ==> start + 1 < r.value <= e
  {
    ClassEndFrom(p, if start + 1 < e && p[start + 1] == '^' then start + 2 else start + 1, e)
  }

  /** Do the members of a set from c up to its closing bracket accept v? */
  predicate InMembers(v: char, p: string, c: nat, close: nat)
    requires close < |p|
    decreases close - c
  {
    if c >= close then false
    else if p[c] == '%' then c + 1 < close && (InClass(v, p[c + 1]) || InMembers(v, p, c + 2, close))
    else if c + 2 < close && p[c + 1] == '-' then p[c] <= v <= p[c + 2] || InMembers(v, p, c + 3, close)
    else v == p[c] || InMembers(v, p, c + 1, close)
  }

  predicate Negated(p: string, start: nat, end: nat)
    requires end <= |p|
  {
    start + 1 < end && p[start + 1] == '^'
  }

  /** Does the set p[start..end] accept v? */
  predicate InSet(v: char, p: string, start: nat, end: nat)
    requires start + 1 < end <= |p|
  {
    InMembers(v, p, if Negated(p, start, end) then start + 2 else start + 1, end - 1) != Negated(p, start, end)
  }

  // ---- items -------------------------------------------------------------------------------

  /** Where the single-byte item at c ends; an unclosed set and a dangling `%` have no end. */
  function AtomEnd(p: string, c: nat, e: nat): (r: Option<nat>)
    requires c < e <= |p|
    ensures r.Some? ==> c < r.value <= e
  {
    if p[c] == '%' then (if c + 1 < e then Some(c + 2) else None)
    else if p[c] == '[' then ClassEnd(p, c, e)
    else Some(c + 1)
  }

  /** Does the single-byte item at c accept v? */
  predicate Accepts(v: char, p: string, c: nat, e: nat)
    requires c < e <= |p|
  {
    if p[c] == '.' then true
    else if p[c] == '%' then c + 1 < e && InClass(v, p[c + 1])
    else if p[c] == '[' then ClassEnd(p, c, e).Some? && InSet(v, p, c, ClassEnd(p, c, e).value)
    else v == p[c]
  }

  /** How many bytes of s from i on the item accepts one after the other. */
  function Extent(s: string, i: nat, p: string, c: nat, e: nat): (n: nat)
    requires i <= |s| && c < e <= |p|
    ensures i + n <= |s|
    ensures forall k :: i <= k < i + n ==> Accepts(s[k], p, c, e)
    ensures i + n < |s| ==> !Accepts(s[i + n], p, c, e)
    decreases |s| - i
  {
    if i < |s| && Accepts(s[i], p, c, e) then 1 + Extent(s, i + 1, p, c, e) else 0
  }

  /** Where the matcher takes the item to end. If the item does not accept the byte at i, a set's
      width is looked up only if the set rejects byte 0; otherwise the set is taken to be one byte
      wide. */
  function SeenEnd(s: string, i: nat, p: string, c: nat, e: nat): (r: Option<nat>)
    requires i <= |s| && c < e <= |p|
    ensures r.Some? ==> c < r.value
    ensures Extent(s, i, p, c, e) > 0 ==> r.Some? && r.value <= e
  {
    if Extent(s, i, p, c, e) > 0 then AtomEnd(p, c, e)
    else if p[c] == '[' then (if Accepts('\0', p, c, e) then Some(c + 1) else ClassEnd(p, c, e))
    else if p[c] == '%' then Some(c + 2)
    else Some(c + 1)
  }

  datatype Quantifier = One | Star | Plus | Maybe | Lazy

  function QuantifierOf(c: char): Quantifier {
    match c
    case '*' => Star case '+' => Plus case '?' => Maybe case '-' => Lazy
    case _ => One
  }

  /** The quantifier at h, if h is inside the pattern. */
  function QuantifierAt(p: string, h: nat, e: nat): Quantifier
    requires e <= |p|
  {
    if h < e then QuantifierOf(p[h]) else One
  }

  function Least(q: Quantifier): nat { if q == Plus || q == One then 1 else 0 }

  /** The most repetitions, if the item accepts n bytes. */
  function Most(q: Quantifier, n: nat): nat { if (q == Maybe || q == One) && n > 1 then 1 else n }

  // ---- groups ------------------------------------------------------------------------------

  /** The bracket that closes a group, `depth` groups deep at c. */
  function CloseFrom(p: string, c: nat, e: nat, depth: nat): (r: Option<nat>)
    requires e <= |p| && depth > 0
    ensures r.Some? ==> c <= r.value < e
    decreases e - c
  {
    if c >= e then None
    else if p[c] == '%' && c + 1 < e then CloseFrom(p, c + 2, e, depth)
    else if p[c] == '[' then
      var k := ClassEnd(p, c, e);
      if k.None? then None else CloseFrom(p, k.value, e, depth)
    else if p[c] == '(' then CloseFrom(p, c + 1, e, depth + 1)
    else if p[c] == ')' then (if depth == 1 then Some(c) else CloseFrom(p, c + 1, e, depth - 1))
    else CloseFrom(p, c + 1, e, depth)
  }

  // ---- matching ----------------------------------------------------------------------------

  datatype Capture = Capture(start: nat, end: nat)

  datatype Match = Matched(end: nat, captures: seq<Capture>) | Unmatched

  /** Match p[c..e] against s from i on. Groups commit to their first match. */
  function MatchRange(s: string, i: nat, p: string, c: nat, e: nat, caps: seq<Capture>): (m: Match)
    requires i <= |s| && e <= |p|
    ensures m.Matched? ==> i <= m.end <= |s| && |caps| <= |m.captures|
    decreases e - c, 1
  {
    if c >= e then Matched(i, caps)
    else if p[c] == '$' && c + 1 == e then (if i == |s| then Matched(i, caps) else Unmatched)
    else if p[c] == '(' then
      var close := CloseFrom(p, c + 1, e, 1);
      if |caps| >= CAPTURE_LIMIT || close.None? then Unmatched
      else
        var m := MatchRange(s, i, p, c + 1, close.value, caps + [Capture(i, 0)]);
        if m.Unmatched? then Unmatched
        else MatchRange(s, m.end, p, close.value + 1, e, m.captures[|caps| := Capture(i, m.end)])
    else
      var h := SeenEnd(s, i, p, c, e);
      var n := Extent(s, i, p, c, e);
      if h.None? then Unmatched
      else
        var q := QuantifierAt(p, h.value, e);
        if q == One then (if n == 0 then Unmatched else MatchRange(s, i + 1, p, h.value, e, caps))
        else if Most(q, n) < Least(q) then Unmatched
        else if q == Lazy then TryUp(s, i, p, h.value + 1, e, caps, Least(q), Most(q, n))
        else TryDown(s, i, p, h.value + 1, e, caps, Least(q), Most(q, n))
  }

  /** The rest of the pattern after n repetitions, n + 1, ..., at most `most`. */
  function TryUp(s: string, i: nat, p: string, c: nat, e: nat, caps: seq<Capture>, n: nat, most: nat): (m: Match)
    requires i + most <= |s| && e <= |p|
    ensures m.Matched? ==> i <= m.end <= |s| && |caps| <= |m.captures|
    decreases e - c, 2, most - n
  {
    if n > most then Unmatched
    else
      var m := MatchRange(s, i + n, p, c, e, caps);
      if m.Matched? then m else TryUp(s, i, p, c, e, caps, n + 1, most)
  }

  /** The rest of the pattern after n repetitions, n - 1, ..., at least `least`. */
  function TryDown(s: string, i: nat, p: string, c: nat, e: nat, caps: seq<Capture>, least: nat, n: nat): (m: Match)
    requires i + n <= |s| && e <= |p|
    ensures m.Matched? ==> i <= m.end <= |s| && |caps| <= |m.captures|
    decreases e - c, 2, n
  {
    if n < least then Unmatched
    else
      var m := MatchRange(s, i + n, p, c, e, caps);
      if m.Matched? then m else if n == 0 then Unmatched else TryDown(s, i, p, c, e, caps, least, n - 1)
  }

  // ---- searching ---------------------------------------------------------------------------

  datatype Found = Found(start: nat, end: nat, captures: seq<Capture>) | NotFound

  predicate Anchored(p: string) { p != [] && p[0] == '^' }

  function MatchAt(s: string, i: nat, p: string): (m: Match)
    requires i <= |s|
    ensures m.Matched? ==> i <= m.end <= |s|
  {
    MatchRange(s, i, p, if Anchored(p) then 1 else 0, |p|, [])
  }

  /** The first position from i on where the pattern matches. */
  function SearchFrom(s: string, i: nat, p: string): (f: Found)
    ensures f.Found? ==> i <= f.start <= f.end <= |s|
    decreases |s| - i
  {
    if i > |s| then NotFound
    else
      var m := MatchAt(s, i, p);
      if m.Matched? then Found(i, m.end, m.captures) else SearchFrom(s, i + 1, p)
  }

  /** An anchored pattern is tried at position 0 only, wherever the search starts. */
  function Search(s: string, start: nat, p: string): (f: Found)
    ensures f.Found? ==> f.start <= f.end <= |s| && (!Anchored(p) ==> start <= f.start)
  {
    if start > |s| then NotFound
    else if Anchored(p) then
      var m := MatchAt(s, 0, p);
      if m.Matched? then Found(0, m.end, m.captures) else NotFound
    else SearchFrom(s, start, p)
  }
}
