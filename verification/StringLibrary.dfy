/** Two more natives over strings: `string.gmatch`, which hands out matches one at a time, and
    `tonumber` with a base. */
module StringLibrary {
  import opened Syntax
  import opened Patterns
  import opened Substitution
  import Matching
  import Lexis

  // ---- gmatch ------------------------------------------------------------------------------

  /** The match found from a position on, if the position is still in the subject. */
  function MatchFrom(s: string, p: string, position: nat): (f: Found)
    ensures f.Found? ==> f.start <= f.end <= |s|
  {
    if position <= |s| then Search(s, position, p) else NotFound
  }

  class MatchIterator {
    const subject: string
    const pattern: string
    var position: nat

    constructor (subject: string, pattern: string)
      ensures this.subject == subject && this.pattern == pattern && position == 0
    {
      this.subject, this.pattern, position := subject, pattern, 0;
    }

    /** The next match; nothing changes when there is none. */
    method Next() returns (f: Found)
      modifies this
      ensures f == MatchFrom(subject, pattern, old(position))
      ensures position == if f.Found? then NextPosition(f) else old(position)
    {
      if position > |subject| { return NotFound; }
      f := Matching.Find(subject, position, pattern);
      if f.Found? {
        position := if f.end > f.start then f.end else f.end + 1;
      }
    }
  }

  /** What the n-th call after the next gives, until one finds nothing. */
  function Iterated(s: string, p: string, position: nat, n: nat): Found
    decreases n
  {
    var f := MatchFrom(s, p, position);
    if n == 0 || f.NotFound? then f else Iterated(s, p, NextPosition(f), n - 1)
  }

  /** A pattern that is not anchored is iterated over exactly the matches that a substitution replaces. */
  lemma {:induction false} IterationIsMatches(s: string, p: string, position: nat, n: nat, k: nat)
    requires !Anchored(p) && position <= |s| + 1
    ensures var ms := Matches(s, p, None, position, k);
      Iterated(s, p, position, n) == if n < |ms| then ms[n] else NotFound
    decreases n
  {
    hide Search;
    SearchBounds(s, position, p);
    if position <= |s| && Search(s, position, p).Found? && n > 0 {
      IterationIsMatches(s, p, NextPosition(Search(s, position, p)), n - 1, k + 1);
    }
  }

  /** An anchored pattern is matched at the start of the subject on every call. */
  lemma {:induction false} AnchoredAgain(s: string, p: string, position: nat, n: nat)
    requires Anchored(p)
    ensures var f := Search(s, 0, p);
      Iterated(s, p, position, n)
      == if position <= |s| && (n == 0 || f.NotFound? || NextPosition(f) <= |s|) then f else NotFound
    decreases n
  {
    var f := Search(s, 0, p);
    if position <= |s| && f.Found? && n > 0 {
      AnchoredAgain(s, p, NextPosition(f), n - 1);
    }
  }

  /** The iteration comes to an end unless the pattern is anchored and its match, which is found
      again and again, leaves something of the subject. */
  lemma IterationEnds(s: string, p: string)
    ensures (exists n: nat :: Iterated(s, p, 0, n).NotFound?)
       <==> !Anchored(p) || Search(s, 0, p).NotFound? || NextPosition(Search(s, 0, p)) > |s|
  {
    hide Search;
    if !Anchored(p) {
      IterationIsMatches(s, p, 0, |s| + 1, 0);
      MatchesInOrder(s, p, None, 0, 0);
      assert Iterated(s, p, 0, |s| + 1).NotFound?;
    } else {
      forall n: nat ensures Iterated(s, p, 0, n)
                         == if n == 0 || Search(s, 0, p).NotFound? || NextPosition(Search(s, 0, p)) <= |s|
                            then Search(s, 0, p) else NotFound {
        AnchoredAgain(s, p, 0, n);
      }
      assert Search(s, 0, p).NotFound? || NextPosition(Search(s, 0, p)) > |s| ==> Iterated(s, p, 0, 1).NotFound?;
    }
  }

  // ---- numerals in a base ------------------------------------------------------------------

  const WORD_RANGE: nat := 0x1_0000_0000_0000_0000

  function DigitOf(c: char): int {
    if '0' <= c <= '9' then c as int - '0' as int
    else if 'a' <= c <= 'z' then 10 + c as int - 'a' as int
    else if 'A' <= c <= 'Z' then 10 + c as int - 'A' as int
    else -1
  }

  predicate DigitIn(c: char, base: int) { 0 <= DigitOf(c) < base }

  predicate AllDigits(t: string, base: int) { forall k :: 0 <= k < |t| ==> DigitIn(t[k], base) }

  /** The number that some digits stand for. */
  function ValueOf(t: string, base: nat): nat
    requires AllDigits(t, base)
  {
    if t == "" then 0 else ValueOf(t[..|t| - 1], base) * base + DigitOf(t[|t| - 1])
  }

  /** t without the spaces at its ends. */
  function Unspaced(t: string): string {
    if t == "" then ""
    else if Lexis.IsSpace(t[0]) then Unspaced(t[1..])
    else if Lexis.IsSpace(t[|t| - 1]) then Unspaced(t[..|t| - 1])
    else t
  }

  predicate Signed(t: string) { t != "" && (t[0] == '+' || t[0] == '-') }

  /** The digits after a sign. */
  function Unsigned(t: string): string { if Signed(t) then t[1..] else t }

  /** What `tonumber` makes of a string in a base: nothing unless it is an optional sign and one or
      more digits of the base that fit in 64 bits. */
  function NumberIn(t: string, base: nat): Option<int> {
    var u := Unspaced(t);
    var digits := Unsigned(u);
    if digits == "" || !AllDigits(digits, base) || ValueOf(digits, base) >= WORD_RANGE then None
    else
      var value: int := ValueOf(digits, base);
      Some(if u[0] == '-' then -value else value)
  }

  lemma Times(a: int, b: int, c: int)
    requires a <= b && c >= 0
    ensures a * c <= b * c
  {
  }

  /** The guard against overflow is exact. */
  lemma GuardIsExact(value: nat, base: nat, digit: nat)
    requires 2 <= base <= 36 && digit < base
    ensures value > (WORD_RANGE - 1 - digit) / base <==> value * base + digit >= WORD_RANGE
  {
    var room := WORD_RANGE - 1 - digit;
    var q := room / base;
    assert q * base <= room < q * base + base;
    if value > q {
      Times(q + 1, value, base);
      assert (q + 1) * base == q * base + base;
    } else {
      Times(value, q, base);
    }
  }

  /** One digit more. */
  lemma ValueSnoc(t: string, c: char, base: nat)
    requires AllDigits(t, base) && DigitIn(c, base)
    ensures AllDigits(t + [c], base) && ValueOf(t + [c], base) == ValueOf(t, base) * base + DigitOf(c)
  {
    assert (t + [c])[..|t|] == t;
  }

  /** More digits never make a smaller number. */
  lemma {:induction false} PrefixSmaller(t: string, n: nat, base: nat)
    requires n <= |t| && AllDigits(t, base) && base >= 1
    ensures ValueOf(t[..n], base) <= ValueOf(t, base)
    decreases |t|
  {
    if n < |t| {
      var front := t[..|t| - 1];
      PrefixSmaller(front, n, base);
      assert front[..n] == t[..n];
      Times(1, base, ValueOf(front, base));
    } else {
      assert t[..n] == t;
    }
  }

  lemma NoDigits(base: nat)
    ensures AllDigits("", base) && ValueOf("", base) == 0
  {
  }

  /** Read a numeral digit by digit. */
  method ToNumber(t: string, base: nat) returns (r: Option<int>)
    requires 2 <= base <= 36
    ensures r == NumberIn(t, base)
  {
    hide ValueOf, Unspaced, DigitOf;
    var u := Trim(t);
    if u == "" { return None; }
    var negative := u[0] == '-';
    var i := if u[0] == '+' || u[0] == '-' then 1 else 0;
    ghost var digits := Unsigned(u);
    ghost var start := i;
    if i >= |u| { return None; }
    var value := 0;
    NoDigits(base);
    while i < |u|
      invariant start <= i <= |u| && digits == u[start..]
      invariant AllDigits(digits[..i - start], base) && value == ValueOf(digits[..i - start], base)
      invariant value < WORD_RANGE
    {
      var digit := DigitOf(u[i]);
      assert digits[i - start] == u[i];
      if digit < 0 || digit >= base { return None; }
      GuardIsExact(value, base, digit);
      ValueSnoc(digits[..i - start], u[i], base);
      assert digits[..i - start + 1] == digits[..i - start] + [u[i]];
      if value > (WORD_RANGE - 1 - digit) / base {
        if AllDigits(digits, base) {
          PrefixSmaller(digits, i - start + 1, base);
        }
        return None;
      }
      value := value * base + digit;
      i := i + 1;
    }
    assert digits[..i - start] == digits;
    r := Some(if negative then -value else value);
  }

  /** Drop the spaces at the start and then those at the end. */
  method Trim(t: string) returns (u: string)
    ensures u == Unspaced(t)
  {
    u := t;
    while u != "" && Lexis.IsSpace(u[0])
      invariant Unspaced(u) == Unspaced(t)
      decreases |u|
    {
      u := u[1..];
    }
    while u != "" && Lexis.IsSpace(u[|u| - 1])
      invariant Unspaced(u) == Unspaced(t) && (u != "" ==> !Lexis.IsSpace(u[0]))
      decreases |u|
    {
      u := u[..|u| - 1];
    }
  }

  // ---- writing a numeral -------------------------------------------------------------------

  function DigitChar(d: nat): (c: char)
    requires d < 36
    ensures DigitOf(c) == d && !Lexis.IsSpace(c) && c != '+' && c != '-'
  {
    if d < 10 then '0' + d as char else 'a' + (d - 10) as char
  }

  lemma QuotientAndRest(n: nat, base: nat)
    requires 2 <= base <= n
    ensures n == (n / base) * base + n % base && 0 <= n / base < n && 0 <= n % base < base
  {
    Times(2, base, n / base);
  }

  function Numeral(n: nat, base: nat): (t: string)
    requires 2 <= base <= 36
    ensures t != "" && forall k :: 0 <= k < |t| ==> DigitIn(t[k], base) && !Lexis.IsSpace(t[k]) && t[k] != '+' && t[k] != '-'
    decreases n
  {
    if n < base then [DigitChar(n)]
    else
      QuotientAndRest(n, base);
      Numeral(n / base, base) + [DigitChar(n % base)]
  }

  lemma {:induction false} NumeralValue(n: nat, base: nat)
    requires 2 <= base <= 36
    ensures ValueOf(Numeral(n, base), base) == n
    decreases n
  {
    hide ValueOf, DigitOf, DigitChar;
    if n < base {
      NoDigits(base);
      OneDigit(n, base);
    } else {
      QuotientAndRest(n, base);
      var q, d := n / base, n % base;
      NumeralValue(q, base);
      MoreDigits(Numeral(q, base), q, d, base);
    }
  }

  lemma OneDigit(n: nat, base: nat)
    requires n < base <= 36
    ensures AllDigits([DigitChar(n)], base) && ValueOf([DigitChar(n)], base) == n
  {
    ValueSnoc("", DigitChar(n), base);
    assert "" + [DigitChar(n)] == [DigitChar(n)];
  }

  lemma MoreDigits(t: string, q: nat, d: nat, base: nat)
    requires AllDigits(t, base) && ValueOf(t, base) == q && d < base <= 36
    ensures AllDigits(t + [DigitChar(d)], base) && ValueOf(t + [DigitChar(d)], base) == q * base + d
  {
    hide ValueOf;
    ValueSnoc(t, DigitChar(d), base);
  }

  lemma {:induction false} SpacesDropped(before: string, t: string, after: string)
    requires t != "" && !Lexis.IsSpace(t[0]) && !Lexis.IsSpace(t[|t| - 1])
    requires (forall k :: 0 <= k < |before| ==> Lexis.IsSpace(before[k])) && forall k :: 0 <= k < |after| ==> Lexis.IsSpace(after[k])
    ensures Unspaced(before + t + after) == t
    decreases |before| + |after|
  {
    var u := before + t + after;
    if before != "" {
      SpacesDropped(before[1..], t, after);
      assert u[1..] == before[1..] + t + after;
    } else if after != "" {
      SpacesDropped(before, t, after[..|after| - 1]);
      assert u[0] == t[0] && u[|u| - 1] == after[|after| - 1];
      assert u[..|u| - 1] == before + t + after[..|after| - 1];
    } else {
      assert u == t;
    }
  }

  /** Writing a number in a base, with a sign if it is negative and spaces around it, and reading it
      in that base gives it back, if it fits in 64 bits. */
  lemma NumeralReads(i: int, base: nat, before: string, after: string)
    requires 2 <= base <= 36 && -(WORD_RANGE as int) < i < WORD_RANGE
    requires (forall k :: 0 <= k < |before| ==> Lexis.IsSpace(before[k])) && forall k :: 0 <= k < |after| ==> Lexis.IsSpace(after[k])
    ensures NumberIn(before + (if i < 0 then "-" + Numeral(-i, base) else Numeral(i, base)) + after, base) == Some(i)
  {
    var n := if i < 0 then -i else i;
    var digits := Numeral(n, base);
    var t := if i < 0 then "-" + digits else digits;
    NumeralValue(n, base);
    assert t[|t| - 1] == digits[|digits| - 1];
    SpacesDropped(before, t, after);
    assert i < 0 ==> t[1..] == digits;
  }
}
