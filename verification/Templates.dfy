/** What a replacement template stands for, piece by piece, and what a substitution with it gives. */
module Templates {
  import opened Patterns
  import opened Syntax
  import opened PatternLaws
  import opened Substitution
  import PatternTheory

  // ---- templates ---------------------------------------------------------------------------

  /** No escape of the template is cut off at its end. */
  predicate Unbroken(t: string) {
    t == [] || (if t[0] != '%' then Unbroken(t[1..]) else |t| > 1 && Unbroken(t[2..]))
  }

  /** Two texts joined, if there are both. */
  function Joined(a: Option<string>, b: Option<string>): Option<string> {
    if a.Some? && b.Some? then Some(a.value + b.value) else None
  }

  /** Filling the end of a template is filling what is left of it. */
  lemma {:induction false} FilledTail(t: string, i: nat, s: string, f: Found)
    requires i <= |t| && f.Found? && f.start <= f.end <= |s|
    ensures Filled(t, i, s, f) == Filled(t[i..], 0, s, f)
    decreases |t| - i
  {
    hide EscapeText;
    var u := t[i..];
    if i < |t| {
      assert u[0] == t[i];
      if t[i] != '%' {
        FilledTail(t, i + 1, s, f);
        FilledTail(u, 1, s, f);
        assert u[1..] == t[i + 1..];
      } else if i + 1 < |t| {
        assert u[1] == t[i + 1];
        FilledTail(t, i + 2, s, f);
        FilledTail(u, 2, s, f);
        assert u[2..] == t[i + 2..];
      }
    }
  }

  /** A template without `%` stands for itself. */
  lemma {:induction false} PlainIs(t: string, k: nat, s: string, f: Found)
    requires '%' !in t && f.Found? && f.start <= f.end <= |s|
    ensures ReplacementText(Template(t), k, s, f) == Some(t)
    decreases t
  {
    hide EscapeText;
    if t != [] {
      assert t == [t[0]] + t[1..];
      PlainIs(t[1..], k, s, f);
      FilledTail(t, 1, s, f);
    }
  }

  /** Two templates one behind the other stand for their texts joined. */
  lemma {:induction false} JoinedIs(a: string, b: string, k: nat, s: string, f: Found)
    requires Unbroken(a) && f.Found? && f.start <= f.end <= |s|
    ensures ReplacementText(Template(a + b), k, s, f)
         == Joined(ReplacementText(Template(a), k, s, f), ReplacementText(Template(b), k, s, f))
    decreases a
  {
    hide EscapeText;
    if a == [] {
      assert a + b == b;
      assert Filled(b, 0, s, f).Some? ==> "" + Filled(b, 0, s, f).value == Filled(b, 0, s, f).value;
    } else {
      var n := if a[0] != '%' then 1 else 2;
      assert (a + b)[n..] == a[n..] + b;
      JoinedIs(a[n..], b, k, s, f);
      FilledTail(a, n, s, f);
      FilledTail(a + b, n, s, f);
      var text := if n == 1 then Some([a[0]]) else EscapeText(s, f, a[1]);
      assert n == 2 ==> (a + b)[1] == a[1];
      if text.Some? { JoinedMore(text.value, Filled(a[n..], 0, s, f), Filled(b, 0, s, f)); }
    }
  }

  lemma JoinedMore(text: string, a: Option<string>, b: Option<string>)
    ensures Before(text, Joined(a, b)) == Joined(Before(text, a), b)
  {
    assert a.Some? && b.Some? ==> text + (a.value + b.value) == text + a.value + b.value;
  }

  /** `%%` stands for `%`, `%0` for the match, and `%1` to `%9` for the captures that there are; no other
      escape has a text, and a lone `%` has none. */
  lemma EscapeIs(s: string, start: nat, p: string, f: Found, c: char, k: nat)
    requires f == Search(s, start, p) && f.Found? && f.start <= f.end <= |s|
    ensures ReplacementText(Template("%%"), k, s, f) == Some("%")
    ensures ReplacementText(Template("%0"), k, s, f) == Some(s[f.start..f.end])
    ensures '1' <= c <= '9' ==>
      var n := c as int - '1' as int;
      if n < |f.captures| then
        && f.captures[n].start <= f.captures[n].end <= |s|
        && ReplacementText(Template(['%', c]), k, s, f) == Some(s[f.captures[n].start..f.captures[n].end])
      else ReplacementText(Template(['%', c]), k, s, f) == None
    ensures c != '%' && !('0' <= c <= '9') ==> ReplacementText(Template(['%', c]), k, s, f) == None
    ensures ReplacementText(Template("%"), k, s, f) == None
  {
    hide Search;
    CapturesInside(s, start, p);
    Escape(s, f, '%');
    Escape(s, f, '0');
    Escape(s, f, c);
  }

  lemma Escape(s: string, f: Found, c: char)
    requires f.Found? && f.start <= f.end <= |s|
    ensures Filled(['%', c], 0, s, f) == EscapeText(s, f, c)
  {
    hide EscapeText;
    var e := EscapeText(s, f, c);
    assert Filled(['%', c], 2, s, f) == Some("");
    assert e.Some? ==> e.value + "" == e.value;
  }

  /** The captures that a search reports are stretches of the subject. */
  lemma CapturesInside(s: string, start: nat, p: string)
    ensures var f := Search(s, start, p);
      f.Found? ==> forall n :: 0 <= n < |f.captures| ==> f.captures[n].start <= f.captures[n].end <= |s|
  {
    hide MatchAt, SearchFrom;
    if start <= |s| {
      if Anchored(p) { MatchInside(s, 0, p); } else { FromInside(s, start, p); }
    }
  }

  lemma {:induction false} FromInside(s: string, i: nat, p: string)
    requires i <= |s|
    ensures var f := SearchFrom(s, i, p);
      f.Found? ==> forall n :: 0 <= n < |f.captures| ==> f.captures[n].start <= f.captures[n].end <= |s|
    decreases |s| - i
  {
    hide MatchAt;
    MatchInside(s, i, p);
    if i < |s| { FromInside(s, i + 1, p); }
  }

  lemma MatchInside(s: string, i: nat, p: string)
    requires i <= |s|
    ensures var m := MatchAt(s, i, p);
      m.Matched? ==> forall n :: 0 <= n < |m.captures| ==> m.captures[n].start <= m.captures[n].end <= |s|
  {
    hide MatchRange;
    if MatchAt(s, i, p).Matched? { PatternTheory.CapturesKept(s, i, p, if Anchored(p) then 1 else 0, |p|, []); }
  }

  // ---- substitution ------------------------------------------------------------------------

  /** The subject with u in place of every t, from left to right. */
  function Replaced(s: string, t: string, u: string): string
    requires t != []
    decreases s
  {
    if s == [] then []
    else if IsAt(s, 0, t) then u + Replaced(s[|t|..], t, u)
    else [s[0]] + Replaced(s[1..], t, u)
  }

  /** How many t are replaced. */
  function Occurrences(s: string, t: string): nat
    requires t != []
    decreases s
  {
    if s == [] then 0
    else if IsAt(s, 0, t) then 1 + Occurrences(s[|t|..], t)
    else Occurrences(s[1..], t)
  }

  lemma IsAtTail(s: string, i: nat, t: string)
    requires i <= |s|
    ensures IsAt(s[i..], 0, t) <==> IsAt(s, i, t)
  {
    if i + |t| <= |s| { assert s[i..][0..|t|] == s[i..i + |t|]; }
  }

  /** Bytes where t does not begin are kept. */
  lemma {:induction false} ReplacedLater(s: string, i: nat, j: nat, t: string, u: string)
    requires t != [] && i <= j <= |s| && forall k :: i <= k < j ==> !IsAt(s, k, t)
    ensures Replaced(s[i..], t, u) == s[i..j] + Replaced(s[j..], t, u)
    ensures Occurrences(s[i..], t) == Occurrences(s[j..], t)
    decreases j - i
  {
    if i < j {
      IsAtTail(s, i, t);
      assert s[i..][1..] == s[i + 1..];
      ReplacedLater(s, i + 1, j, t, u);
      assert s[i..j] == [s[i]] + s[i + 1..j];
    }
  }

  /** A substitution of a literal text by a template without `%` replaces every place of it. */
  lemma {:induction false} LiteralGsub(s: string, t: string, u: string, i: nat, k: nat)
    requires Literal(t) && t != [] && !Anchored(t) && '%' !in u && i <= |s|
    ensures GsubFrom(s, t, Template(u), None, i, k) == Substituted(Replaced(s[i..], t, u), k + Occurrences(s[i..], t))
    decreases |s| - i
  {
    hide Search, Literal, ReplacementText, IsAt, Anchored;
    var f := Search(s, i, t);
    LiteralSearch(s, i, t);
    if f.NotFound? {
      ReplacedLater(s, i, |s|, t, u);
      assert s[|s|..] == [] && s[i..|s|] == s[i..];
    } else {
      FoundLiteral(s, i, t, f);
      PlainIs(u, k, s, f);
      ReplacedLater(s, i, f.start, t, u);
      IsAtTail(s, f.start, t);
      assert s[f.start..][|t|..] == s[f.end..];
      LiteralGsub(s, t, u, f.end, k + 1);
      assert s[i..f.start] + u + "" + Replaced(s[f.end..], t, u) == s[i..f.start] + (u + Replaced(s[f.end..], t, u));
    }
  }

  lemma FoundLiteral(s: string, i: nat, t: string, f: Found)
    requires f.Found? && FirstAt(s, i, t, f) && t != []
    ensures i <= f.start < f.end <= |s| && f.end == f.start + |t| && IsAt(s, f.start, t)
    ensures forall k :: i <= k < f.start ==> !IsAt(s, k, t)
  {
  }

  /** The parts of s between the matches, with u in place of each. */
  function Interleaved(s: string, i: nat, ms: seq<Found>, u: string): string
    requires i <= |s| && InOrder(s, i, ms)
    decreases ms
  {
    if ms == [] then s[i..]
    else
      assert InOrder(s, ms[0].end, ms[1..]);
      s[i..ms[0].start] + u + Interleaved(s, ms[0].end, ms[1..], u)
  }

  lemma {:induction false} WeaveIs(s: string, i: nat, ms: seq<Found>, k: nat, u: string)
    requires i <= |s| && InOrder(s, i, ms) && '%' !in u
    ensures Weave(s, i, ms, Texts(Template(u), k, s, ms)) == Interleaved(s, i, ms, u)
    decreases ms
  {
    hide InOrder, ReplacementText;
    if ms != [] {
      FirstInOrder(s, i, ms);
      PlainIs(u, k, s, ms[0]);
      WeaveIs(s, ms[0].end, ms[1..], k + 1, u);
      assert Texts(Template(u), k, s, ms)[1..] == Texts(Template(u), k + 1, s, ms[1..]);
    }
  }

  lemma {:induction false} PlainSucceeds(s: string, p: string, u: string, limit: Option<nat>, i: nat, k: nat)
    requires '%' !in u && !Anchored(p) && i <= |s| + 1
    ensures GsubFrom(s, p, Template(u), limit, i, k).Substituted?
    decreases |s| + 1 - i
  {
    hide Search, ReplacementText, Anchored;
    if i <= |s| {
      var f := Search(s, i, p);
      SearchBounds(s, i, p);
      if f.Found? {
        PlainIs(u, k, s, f);
        PlainSucceeds(s, p, u, limit, NextPosition(f), k + 1);
      }
    }
  }

  /** A substitution by a template without `%` puts it in place of every match. It fails for no pattern
      but an anchored one. */
  lemma PlainGsub(s: string, p: string, u: string, limit: Option<nat>)
    requires '%' !in u
    ensures var ms, g := Matches(s, p, limit, 0, 0), GsubFrom(s, p, Template(u), limit, 0, 0);
      && (!Anchored(p) ==> g.Substituted?)
      && (g.Substituted? ==> InOrder(s, 0, ms) && g == Substituted(Interleaved(s, 0, ms, u), |ms|))
  {
    hide GsubFrom, Matches, InOrder, Texts, Anchored;
    if !Anchored(p) { PlainSucceeds(s, p, u, limit, 0, 0); }
    if GsubFrom(s, p, Template(u), limit, 0, 0).Substituted? {
      GsubWeaves(s, p, Template(u), limit, 0, 0);
      WeaveIs(s, 0, Matches(s, p, limit, 0, 0), 0, u);
    }
  }
}
