/** What the smallest patterns mean, with every class, range and repetition written out. */
module PatternLaws {
  import opened Syntax
  import opened Patterns

  // ---- one item ----------------------------------------------------------------------------

  /** A pattern that is one item accepts a byte or does not. */
  lemma OneItem(v: char, p: string, caps: seq<Capture>)
    requires p != [] && p[0] != '(' && p != "$" && AtomEnd(p, 0, |p|) == Some(|p|)
    requires p[0] == '[' && Accepts('\0', p, 0, |p|) ==> |p| > 1 && QuantifierOf(p[1]) == One
    ensures MatchRange([v], 0, p, 0, |p|, caps) == if Accepts(v, p, 0, |p|) then Matched(1, caps) else Unmatched
  {
    hide Accepts, AtomEnd, ClassEnd, Extent, TryUp, TryDown, QuantifierOf, CloseFrom;
    Single(v, p);
    Done([v], 1, p, caps);
    assert QuantifierAt(p, |p|, |p|) == One;
    if !Accepts(v, p, 0, |p|) { RejectedEnd(v, p); }
  }

  lemma Single(v: char, p: string)
    requires p != []
    ensures Extent([v], 0, p, 0, |p|) == if Accepts(v, p, 0, |p|) then 1 else 0
  {
    hide Accepts;
  }

  lemma Done(s: string, i: nat, p: string, caps: seq<Capture>)
    requires i <= |s|
    ensures MatchRange(s, i, p, |p|, |p|, caps) == Matched(i, caps)
  {
  }

  /** After a byte is refused the item is seen to end where it does, or at no quantifier. */
  lemma RejectedEnd(v: char, p: string)
    requires p != [] && p != "$" && AtomEnd(p, 0, |p|) == Some(|p|) && !Accepts(v, p, 0, |p|)
    requires p[0] == '[' && Accepts('\0', p, 0, |p|) ==> |p| > 1 && QuantifierOf(p[1]) == One
    ensures var h := SeenEnd([v], 0, p, 0, |p|); h.Some? && QuantifierAt(p, h.value, |p|) == One
  {
    hide Accepts, ClassEnd, QuantifierOf, Extent;
    Single(v, p);
  }

  // ---- classes -----------------------------------------------------------------------------

  predicate IsClass(c: char) { c in "acdlpsuwxz" }

  /** The bytes of each class. */
  predicate Member(v: char, c: char) {
    if c == 'a' then 'A' <= v <= 'Z' || 'a' <= v <= 'z'
    else if c == 'c' then v <= '\U{1F}' || v == '\U{7F}'
    else if c == 'd' then '0' <= v <= '9'
    else if c == 'l' then 'a' <= v <= 'z'
    else if c == 'p' then '!' <= v <= '/' || ':' <= v <= '@' || '[' <= v <= '`' || '{' <= v <= '~'
    else if c == 's' then v == ' ' || v == '\t' || v == '\n' || v == '\U{0B}' || v == '\U{0C}' || v == '\r'
    else if c == 'u' then 'A' <= v <= 'Z'
    else if c == 'w' then '0' <= v <= '9' || 'A' <= v <= 'Z' || 'a' <= v <= 'z'
    else if c == 'x' then '0' <= v <= '9' || 'A' <= v <= 'F' || 'a' <= v <= 'f'
    else v == '\0'
  }

  /** The capital of a small letter. */
  function Capital(c: char): char
    requires 'a' <= c <= 'z'
  {
    (c as int - 'a' as int + 'A' as int) as char
  }

  lemma ClassAccepts(v: char, c: char)
    ensures IsClass(c) ==> (InClass(v, c) <==> Member(v, c))
  {
  }

  lemma CapitalAccepts(v: char, c: char)
    ensures IsClass(c) ==> (InClass(v, Capital(c)) <==> !Member(v, c))
  {
    if IsClass(c) { ClassAccepts(v, c); }
  }

  lemma OtherAccepts(v: char, c: char)
    ensures !IsClass(c) && !('A' <= c <= 'Z') ==> (InClass(v, c) <==> v == c)
    ensures 'A' <= c <= 'Z' && (forall d | IsClass(d) :: c != Capital(d)) ==> (InClass(v, c) <==> v != c)
  {
    if 'A' <= c <= 'Z' && (forall d | IsClass(d) :: c != Capital(d)) {
      var d := ToLower(c);
      assert c == Capital(d);
      assert !IsClass(d);
    }
  }

  /** `%` and a class letter accept exactly the bytes of the class, and `%` and its capital all others;
      before any other byte that is not a capital letter `%` stands for the byte, and before any other
      capital for all bytes but that. */
  lemma ClassIs(v: char, c: char)
    ensures IsClass(c) ==> MatchRange([v], 0, ['%', c], 0, 2, []) == if Member(v, c) then Matched(1, []) else Unmatched
    ensures IsClass(c) ==> MatchRange([v], 0, ['%', Capital(c)], 0, 2, []) == if Member(v, c) then Unmatched else Matched(1, [])
    ensures !IsClass(c) && !('A' <= c <= 'Z') ==>
      MatchRange([v], 0, ['%', c], 0, 2, []) == if v == c then Matched(1, []) else Unmatched
    ensures 'A' <= c <= 'Z' && (forall d | IsClass(d) :: c != Capital(d)) ==>
      MatchRange([v], 0, ['%', c], 0, 2, []) == if v == c then Unmatched else Matched(1, [])
  {
    hide InClass, Member, MatchRange;
    Escaped(v, c);
    ClassAccepts(v, c);
    CapitalAccepts(v, c);
    OtherAccepts(v, c);
    if IsClass(c) { Escaped(v, Capital(c)); }
  }

  lemma Escaped(v: char, c: char)
    ensures MatchRange([v], 0, ['%', c], 0, 2, []) == if InClass(v, c) then Matched(1, []) else Unmatched
  {
    hide InClass, MatchRange;
    OneItem(v, ['%', c], []);
  }

  /** A dot accepts every byte, and a byte without meaning in patterns itself alone. */
  lemma ByteIs(v: char, c: char)
    ensures MatchRange([v], 0, ".", 0, 1, []) == Matched(1, [])
    ensures c !in "(.%[$" ==> MatchRange([v], 0, [c], 0, 1, []) == if v == c then Matched(1, []) else Unmatched
  {
    hide MatchRange;
    OneItem(v, ".", []);
    if c !in "(.%[$" { OneItem(v, [c], []); }
  }

  // ---- sets --------------------------------------------------------------------------------

  /** Neither an escape nor the end of a set. */
  predicate Ordinary(c: char) { c != '%' && c != ']' }

  /** A range accepts the bytes from its first to its last, both included, and a negated one all others. */
  lemma RangeIs(v: char, x: char, y: char)
    requires Ordinary(x) && Ordinary(y)
    ensures x != '^' ==>
      MatchRange([v], 0, ['[', x, '-', y, ']'], 0, 5, []) == if x <= v <= y then Matched(1, []) else Unmatched
    ensures MatchRange([v], 0, ['[', '^', x, '-', y, ']'], 0, 6, []) == if x <= v <= y then Unmatched else Matched(1, [])
  {
    hide MatchRange, InMembers;
    var p, q := ['[', x, '-', y, ']'], ['[', '^', x, '-', y, ']'];
    RangeMembers(v, p, 1);
    RangeMembers('\0', p, 1);
    RangeMembers(v, q, 2);
    RangeEnds(p, 1);
    RangeEnds(q, 2);
    if x != '^' { OneItem(v, p, []); }
    OneItem(v, q, []);
  }

  lemma RangeMembers(v: char, p: string, c: nat)
    requires |p| == c + 4 && Ordinary(p[c]) && p[c + 1] == '-'
    ensures InMembers(v, p, c, c + 3) <==> p[c] <= v <= p[c + 2]
  {
    assert !InMembers(v, p, c + 3, c + 3);
  }

  lemma RangeEnds(p: string, c: nat)
    requires |p| == c + 4 && Ordinary(p[c]) && p[c + 1] == '-' && Ordinary(p[c + 2]) && p[c + 3] == ']'
    ensures ClassEndFrom(p, c, |p|) == Some(|p|)
  {
    assert ClassEndFrom(p, c + 3, |p|) == Some(|p|);
    assert ClassEndFrom(p, c + 2, |p|) == Some(|p|);
    assert ClassEndFrom(p, c + 1, |p|) == Some(|p|);
  }

  /** Bytes that stand for themselves in a set. */
  predicate Plain(m: string) { forall i :: 0 <= i < |m| ==> m[i] != '%' && m[i] != ']' && m[i] != '-' }

  /** A negated set of bytes accepts all others. */
  lemma NegatedSetIs(v: char, m: string)
    requires Plain(m)
    ensures MatchRange([v], 0, "[^" + m + "]", 0, |m| + 3, []) == if v in m then Unmatched else Matched(1, [])
  {
    hide MatchRange, InMembers, Plain;
    var q := "[^" + m + "]";
    assert q[2..|m| + 2] == m;
    PlainMembers(v, q, 2);
    PlainEnds(q, 2);
    OneItem(v, q, []);
  }

  /** A set of bytes accepts those, unless it lists byte 0 behind a quantifier. */
  lemma SetIs(v: char, m: string)
    requires Plain(m) && m != [] && m[0] != '^' && ('\0' in m ==> m[0] !in "*+?")
    ensures MatchRange([v], 0, "[" + m + "]", 0, |m| + 2, []) == if v in m then Matched(1, []) else Unmatched
  {
    hide MatchRange, InMembers, ClassEndFrom;
    var p := "[" + m + "]";
    assert p[1..|m| + 1] == m && p[1] == m[0];
    PlainMembers(v, p, 1);
    PlainMembers('\0', p, 1);
    PlainEnds(p, 1);
    OneItem(v, p, []);
  }

  lemma {:induction false} PlainMembers(v: char, p: string, c: nat)
    requires 0 < c < |p| && Plain(p[c..|p| - 1])
    ensures InMembers(v, p, c, |p| - 1) <==> v in p[c..|p| - 1]
    decreases |p| - c
  {
    var m := p[c..|p| - 1];
    if c < |p| - 1 {
      assert m[0] == p[c];
      if c + 2 < |p| - 1 { assert m[1] == p[c + 1]; }
      assert p[c + 1..|p| - 1] == m[1..];
      PlainMembers(v, p, c + 1);
      assert m == [p[c]] + m[1..];
    }
  }

  lemma {:induction false} PlainEnds(p: string, c: nat)
    requires 0 < c < |p| && Plain(p[c..|p| - 1]) && p[|p| - 1] == ']'
    ensures ClassEndFrom(p, c, |p|) == Some(|p|)
    decreases |p| - c
  {
    var m := p[c..|p| - 1];
    if c < |p| - 1 {
      assert m[0] == p[c];
      assert p[c + 1..|p| - 1] == m[1..];
      PlainEnds(p, c + 1);
    }
  }

  // ---- literal bytes -----------------------------------------------------------------------

  /** Bytes that stand for themselves wherever they are. */
  predicate Literal(t: string) { forall i :: 0 <= i < |t| ==> IsLiteral(t[i]) }

  predicate IsLiteral(c: char) { c !in "$(%.[*+-?" }

  /** The text t is in s at i. */
  predicate IsAt(s: string, i: nat, t: string) { i + |t| <= |s| && s[i..i + |t|] == t }

  /** Literal bytes at the start of a pattern match themselves, and the rest goes on behind them. */
  lemma {:induction false} LiteralFirst(s: string, i: nat, p: string, c: nat, d: nat, e: nat, caps: seq<Capture>)
    requires i <= |s| && c <= d <= e <= |p| && Literal(p[c..d]) && (d < e ==> p[d] !in "*+-?")
    ensures MatchRange(s, i, p, c, e, caps)
         == if IsAt(s, i, p[c..d]) then MatchRange(s, i + (d - c), p, d, e, caps) else Unmatched
    decreases d - c
  {
    hide MatchRange, Literal;
    var t := p[c..d];
    if c == d {
      assert s[i..i] == t;
    } else {
      assert t == [p[c]] + p[c + 1..d];
      LiteralTail(p[c], p[c + 1..d]);
      assert c + 1 < d ==> p[c + 1] == p[c + 1..d][0];
      LiteralStep(s, i, p, c, e, caps);
      if i < |s| && s[i] == p[c] {
        LiteralFirst(s, i + 1, p, c + 1, d, e, caps);
      }
      AtStep(s, i, p[c], p[c + 1..d]);
    }
  }

  lemma LiteralTail(x: char, t: string)
    requires Literal([x] + t)
    ensures IsLiteral(x) && Literal(t) && (t != [] ==> IsLiteral(t[0]))
  {
    assert ([x] + t)[0] == x;
    forall i | 0 <= i < |t| ensures IsLiteral(t[i]) {
      assert ([x] + t)[i + 1] == t[i];
    }
  }

  lemma AtStep(s: string, i: nat, x: char, t: string)
    requires i <= |s|
    ensures IsAt(s, i, [x] + t) <==> i < |s| && s[i] == x && IsAt(s, i + 1, t)
  {
    if i + 1 + |t| <= |s| {
      assert s[i..i + 1 + |t|] == [s[i]] + s[i + 1..i + 1 + |t|];
      if s[i..i + 1 + |t|] == [x] + t { assert s[i + 1..i + 1 + |t|] == s[i..i + 1 + |t|][1..]; }
    }
  }

  lemma LiteralStep(s: string, i: nat, p: string, c: nat, e: nat, caps: seq<Capture>)
    requires i <= |s| && c < e <= |p| && IsLiteral(p[c]) && (c + 1 < e ==> p[c + 1] !in "*+-?")
    ensures MatchRange(s, i, p, c, e, caps)
         == if i < |s| && s[i] == p[c] then MatchRange(s, i + 1, p, c + 1, e, caps) else Unmatched
  {
    hide TryUp, TryDown, ClassEnd, CloseFrom, InClass, InSet;
    assert Accepts(if i < |s| then s[i] else p[c], p, c, e) <==> i < |s| ==> s[i] == p[c];
  }

  // ---- searching ---------------------------------------------------------------------------

  /** What a search for a text from `start` on finds: the first place where it is. */
  predicate FirstAt(s: string, start: nat, t: string, f: Found) {
    if f.Found? then
      && start <= f.start && IsAt(s, f.start, t) && f.end == f.start + |t| && f.captures == []
      && forall j :: start <= j < f.start ==> !IsAt(s, j, t)
    else forall j :: start <= j <= |s| ==> !IsAt(s, j, t)
  }

  /** Searching for a literal text finds its first place. */
  lemma LiteralSearch(s: string, start: nat, t: string)
    requires Literal(t) && !Anchored(t)
    ensures FirstAt(s, start, t, Search(s, start, t))
  {
    if start <= |s| { LiteralFrom(s, start, t); }
  }

  lemma {:induction false} LiteralFrom(s: string, i: nat, t: string)
    requires Literal(t) && !Anchored(t) && i <= |s|
    ensures FirstAt(s, i, t, SearchFrom(s, i, t))
    decreases |s| - i
  {
    hide MatchRange, Literal, IsAt;
    assert t[0..|t|] == t;
    LiteralFirst(s, i, t, 0, |t|, |t|, []);
    if IsAt(s, i, t) {
      LiteralEnds(s, i, t);
    } else if i < |s| {
      LiteralFrom(s, i + 1, t);
    }
  }

  lemma LiteralEnds(s: string, i: nat, t: string)
    requires IsAt(s, i, t)
    ensures i + |t| <= |s| && MatchRange(s, i + |t|, t, |t|, |t|, []) == Matched(i + |t|, [])
  {
  }

  /** With `^` in front a text is found at the start only, with `$` behind it at the end only, and with
      both a subject matches that is the text. */
  lemma AnchorsAre(s: string, t: string)
    requires Literal(t)
    ensures Search(s, 0, "^" + t) == if IsAt(s, 0, t) then Found(0, |t|, []) else NotFound
    ensures Search(s, 0, "^" + t + "$") == if s == t then Found(0, |t|, []) else NotFound
  {
    hide MatchRange, Literal;
    var p, q := "^" + t, "^" + t + "$";
    assert p[1..|p|] == t && q[1..|t| + 1] == t;
    LiteralFirst(s, 0, p, 1, |p|, |p|, []);
    LiteralFirst(s, 0, q, 1, |t| + 1, |q|, []);
    if IsAt(s, 0, t) {
      Done(s, |t|, p, []);
      AtDollar(s, |t|, q, []);
      assert s == t <==> |s| == |t|;
    }
  }

  lemma AtDollar(s: string, i: nat, p: string, caps: seq<Capture>)
    requires i <= |s| && p != [] && p[|p| - 1] == '$'
    ensures MatchRange(s, i, p, |p| - 1, |p|, caps) == if i == |s| then Matched(i, caps) else Unmatched
  {
  }

  /** With `$` behind it a text is found at the end, if it is there and not before `start`. */
  lemma {:induction false} EndIs(s: string, i: nat, t: string)
    requires Literal(t) && !Anchored(t + "$") && i <= |s|
    ensures SearchFrom(s, i, t + "$")
         == if i + |t| <= |s| && IsAt(s, |s| - |t|, t) then Found(|s| - |t|, |s|, []) else NotFound
    decreases |s| - i
  {
    hide MatchRange, Literal;
    var p := t + "$";
    assert p[0..|t|] == t;
    LiteralFirst(s, i, p, 0, |t|, |p|, []);
    if IsAt(s, i, t) { AtDollar(s, i + |t|, p, []); }
    if i < |s| { EndIs(s, i + 1, t); }
  }

  // ---- repetition --------------------------------------------------------------------------

  /** There are n bytes x in s from i on, and then no more. */
  predicate IsRun(s: string, i: nat, x: char, n: nat) {
    i + n <= |s| && (forall k :: i <= k < i + n ==> s[k] == x) && (i + n < |s| ==> s[i + n] != x)
  }

  /** At the end of a pattern `*` takes as many bytes as there are, `+` the same but one at least, `?` one
      if there is one, and `-` none. */
  lemma RepeatIs(s: string, i: nat, x: char) returns (n: nat)
    requires i <= |s| && IsLiteral(x)
    ensures IsRun(s, i, x, n)
    ensures MatchRange(s, i, [x, '*'], 0, 2, []) == Matched(i + n, [])
    ensures MatchRange(s, i, [x, '+'], 0, 2, []) == if n == 0 then Unmatched else Matched(i + n, [])
    ensures MatchRange(s, i, [x, '?'], 0, 2, []) == Matched(if n == 0 then i else i + 1, [])
    ensures MatchRange(s, i, [x, '-'], 0, 2, []) == Matched(i, [])
  {
    hide MatchRange, Extent, IsRun;
    n := Extent(s, i, [x, '*'], 0, 2);
    SameRun(s, i, x, '*');
    SameRun(s, i, x, '+');
    SameRun(s, i, x, '?');
    SameRun(s, i, x, '-');
    Repeated(s, i, x, '*');
    Repeated(s, i, x, '+');
    Repeated(s, i, x, '?');
    Repeated(s, i, x, '-');
  }

  lemma {:induction false} SameRun(s: string, i: nat, x: char, q: char)
    requires i <= |s| && IsLiteral(x)
    ensures Extent(s, i, [x, q], 0, 2) == Extent(s, i, [x, '*'], 0, 2)
    ensures IsRun(s, i, x, Extent(s, i, [x, q], 0, 2))
    decreases |s| - i
  {
    if i < |s| && s[i] == x { SameRun(s, i + 1, x, q); }
  }

  lemma Repeated(s: string, i: nat, x: char, q: char)
    requires i <= |s| && IsLiteral(x) && q in "*+-?"
    ensures var n := Extent(s, i, [x, q], 0, 2);
      MatchRange(s, i, [x, q], 0, 2, [])
      == if q == '*' then Matched(i + n, [])
         else if q == '+' then (if n == 0 then Unmatched else Matched(i + n, []))
         else if q == '?' then Matched(if n == 0 then i else i + 1, [])
         else Matched(i, [])
  {
    hide Extent, Accepts, ClassEnd, CloseFrom;
    var p, n := [x, q], Extent(s, i, [x, q], 0, 2);
    Done(s, i, p, []);
    Done(s, i + n, p, []);
    if n > 0 { Done(s, i + 1, p, []); }
  }

  /** The first place of a byte from i on, or past the end. */
  predicate FirstByte(s: string, i: nat, y: char, k: nat) {
    i <= k <= |s| && (k < |s| ==> s[k] == y) && forall j :: i <= j < k ==> s[j] != y
  }

  /** The last place of a byte from i on. */
  predicate LastByte(s: string, i: nat, y: char, k: nat) {
    i <= k < |s| && s[k] == y && forall j :: k < j < |s| ==> s[j] != y
  }

  /** `.-y` goes up to the first y and `.*y` up to the last. */
  lemma FarAndNear(s: string, i: nat, y: char) returns (near: nat, far: nat)
    requires i <= |s| && IsLiteral(y)
    ensures FirstByte(s, i, y, near)
    ensures near < |s| ==> LastByte(s, i, y, far)
    ensures MatchRange(s, i, ['.', '-', y], 0, 3, []) == if near < |s| then Matched(near + 1, []) else Unmatched
    ensures MatchRange(s, i, ['.', '*', y], 0, 3, []) == if near < |s| then Matched(far + 1, []) else Unmatched
  {
    hide MatchRange, TryUp, TryDown;
    Dots(s, i, '-', y);
    Dots(s, i, '*', y);
    near := Near(s, i, y, 0);
    far := Far(s, i, y, |s| - i);
  }

  lemma Dots(s: string, i: nat, q: char, y: char)
    requires i <= |s| && (q == '*' || q == '-')
    ensures MatchRange(s, i, ['.', q, y], 0, 3, [])
         == if q == '*' then TryDown(s, i, ['.', q, y], 2, 3, [], 0, |s| - i) else TryUp(s, i, ['.', q, y], 2, 3, [], 0, |s| - i)
  {
    hide TryUp, TryDown, ClassEnd, CloseFrom;
    AllDots(s, i, ['.', q, y]);
  }

  lemma {:induction false} AllDots(s: string, i: nat, p: string)
    requires i <= |s| && p != [] && p[0] == '.'
    ensures Extent(s, i, p, 0, |p|) == |s| - i
    decreases |s| - i
  {
    if i < |s| { AllDots(s, i + 1, p); }
  }

  lemma ThenByte(s: string, i: nat, q: char, y: char)
    requires i <= |s| && IsLiteral(y)
    ensures MatchRange(s, i, ['.', q, y], 2, 3, []) == if i < |s| && s[i] == y then Matched(i + 1, []) else Unmatched
  {
    hide MatchRange;
    LiteralStep(s, i, ['.', q, y], 2, 3, []);
    if i < |s| { Done(s, i + 1, ['.', q, y], []); }
  }

  lemma {:induction false} Near(s: string, i: nat, y: char, n: nat) returns (k: nat)
    requires i + n <= |s| && IsLiteral(y)
    ensures FirstByte(s, i + n, y, k)
    ensures TryUp(s, i, ['.', '-', y], 2, 3, [], n, |s| - i) == if k < |s| then Matched(k + 1, []) else Unmatched
    decreases |s| - i - n
  {
    hide MatchRange;
    ThenByte(s, i + n, '-', y);
    k := i + n;
    if k < |s| && s[k] != y { k := Near(s, i, y, n + 1); }
  }

  lemma {:induction false} Far(s: string, i: nat, y: char, n: nat) returns (k: nat)
    requires i + n <= |s| && IsLiteral(y) && forall j :: i + n < j < |s| ==> s[j] != y
    ensures TryDown(s, i, ['.', '*', y], 2, 3, [], 0, n) == if LastByte(s, i, y, k) then Matched(k + 1, []) else Unmatched
    ensures !LastByte(s, i, y, k) ==> forall j :: i <= j < |s| ==> s[j] != y
    decreases n
  {
    hide MatchRange;
    ThenByte(s, i + n, '*', y);
    k := i + n;
    if (k == |s| || s[k] != y) && n > 0 { k := Far(s, i, y, n - 1); }
  }

  // ---- groups ------------------------------------------------------------------------------

  /** A group captures the bytes that what is inside it matches. */
  lemma GroupIs(s: string, i: nat, t: string, u: string)
    requires i <= |s| && Literal(t) && Literal(u) && ')' !in t
    ensures MatchRange(s, i, "(" + t + ")" + u, 0, |t| + |u| + 2, [])
         == if IsAt(s, i, t) && IsAt(s, i + |t|, u) then Matched(i + |t| + |u|, [Capture(i, i + |t|)]) else Unmatched
  {
    hide MatchRange, Literal, CloseFrom;
    var p, n := "(" + t + ")" + u, |t|;
    assert p[1..n + 1] == t && p[n + 2..n + 2 + |u|] == u && p[n + 1] == ')' && |p| == n + |u| + 2;
    GroupCloses(p, 1, n + 1);
    GroupStep(s, i, p, n + 1);
    LiteralFirst(s, i, p, 1, n + 1, n + 1, [Capture(i, 0)]);
    if IsAt(s, i, t) {
      RangeDone(s, i + n, p, n + 1, [Capture(i, 0)]);
      assert [Capture(i, 0)][0 := Capture(i, i + n)] == [Capture(i, i + n)];
      LiteralFirst(s, i + n, p, n + 2, |p|, |p|, [Capture(i, i + n)]);
      if IsAt(s, i + n, u) { RangeDone(s, i + n + |u|, p, |p|, [Capture(i, i + n)]); }
    }
  }

  lemma RangeDone(s: string, i: nat, p: string, e: nat, caps: seq<Capture>)
    requires i <= |s| && e <= |p|
    ensures MatchRange(s, i, p, e, e, caps) == Matched(i, caps)
  {
  }

  lemma GroupStep(s: string, i: nat, p: string, close: nat)
    requires i <= |s| && 0 < close < |p| && p[0] == '(' && CloseFrom(p, 1, |p|, 1) == Some(close)
    ensures var m := MatchRange(s, i, p, 1, close, [Capture(i, 0)]);
      MatchRange(s, i, p, 0, |p|, [])
      == if m.Unmatched? then Unmatched else MatchRange(s, m.end, p, close + 1, |p|, m.captures[0 := Capture(i, m.end)])
  {
    hide CloseFrom, TryUp, TryDown, Extent, SeenEnd, QuantifierAt, Most, Least;
    assert !(p[0] == '$' && 1 == |p|);
    assert [] + [Capture(i, 0)] == [Capture(i, 0)];
  }

  lemma {:induction false} GroupCloses(p: string, c: nat, close: nat)
    requires c <= close < |p| && Literal(p[c..close]) && ')' !in p[c..close] && p[close] == ')'
    ensures CloseFrom(p, c, |p|, 1) == Some(close)
    decreases close - c
  {
    if c < close {
      assert p[c..close] == [p[c]] + p[c + 1..close];
      LiteralTail(p[c], p[c + 1..close]);
      assert ')' !in p[c + 1..close] && p[c] != ')';
      GroupCloses(p, c + 1, close);
    }
  }
}
