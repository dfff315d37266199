/** What the operators mean: laws that tie them to each other and to arithmetic. */
module Operators {
  import opened Tokens
  import opened Syntax
  import opened Values

  // ---- floor division ----------------------------------------------------------------------

  lemma QuotientTimes(l: real, r: real)
    requires r != 0.0
    ensures (l / r) * r == l
  {
  }

  lemma Scaled(f: real, r: real, m: real)
    requires 0.0 <= f < 1.0 && r != 0.0 && m == f * r
    ensures if r > 0.0 then 0.0 <= m < r else r < m <= 0.0
  {
  }

  /** With q the exact quotient and d at most one below it, the rest lies between 0 and the divisor. */
  lemma RestBound(l: real, q: real, d: real, r: real)
    requires q * r == l && r != 0.0 && 0.0 <= q - d < 1.0
    ensures d * r + FloorRest(l, d, r) == l
    ensures if r > 0.0 then 0.0 <= FloorRest(l, d, r) < r else r < FloorRest(l, d, r) <= 0.0
  {
    Scaled(q - d, r, FloorRest(l, d, r));
  }

  /** Below two to the 63 the cast, taken one lower where it is too high, is the floor. */
  lemma FlooredIsFloor(q: real, overflow: Word)
    requires -(TWO_63 as real) <= q < TWO_63 as real
    ensures Floored(q, overflow) == q.Floor as real && 0.0 <= q - Floored(q, overflow) < 1.0
  {
    var t := Cast(q, overflow);
    Truncated(q, t);
    Between(q, if t as real > q then t - 1 else t);
  }

  lemma Truncated(q: real, t: int)
    requires t == if q >= 0.0 then q.Floor else -(-q).Floor
    ensures t as real - 1.0 < q < t as real + 1.0
  {
    var n := if q >= 0.0 then q else -q;
    var f := n.Floor;
    assert f as real <= n < f as real + 1.0;
    assert (-f) as real == -(f as real);
  }

  lemma Between(q: real, n: int)
    requires n as real <= q < n as real + 1.0
    ensures q.Floor == n
  {
  }

  /** At two to the 63 it is at most whatever the cast gives. */
  lemma FlooredAtLimit(overflow: Word)
    ensures Floored(TWO_63 as real, overflow) == overflow as real <= TWO_63 as real - 1.0
  {
  }

  lemma RestSplits(l: real, d: real, r: real)
    ensures d * r + FloorRest(l, d, r) == l
  {
  }

  /** If d is at least one below the exact quotient, the rest is at least as large as the divisor. */
  lemma RestTooLarge(l: real, q: real, d: real, r: real)
    requires q * r == l && r != 0.0 && q - d >= 1.0
    ensures if r > 0.0 then FloorRest(l, d, r) >= r else FloorRest(l, d, r) <= r
  {
    AtLeastOnce(q - d, r, FloorRest(l, d, r));
  }

  lemma AtLeastOnce(f: real, r: real, m: real)
    requires f >= 1.0 && m == f * r
    ensures r > 0.0 ==> m >= r
    ensures r < 0.0 ==> m <= r
  {
    if r > 0.0 {
      assert (f - 1.0) * r >= 0.0;
    } else if r < 0.0 {
      assert (f - 1.0) * r <= 0.0;
    }
  }

  /** The rest has the sign of the divisor and is smaller. */
  predicate IsRest(m: real, r: real) { if r > 0.0 then 0.0 <= m < r else r < m <= 0.0 }

  /** The quotient of a floor division is an integer, and quotient and remainder give back the
      dividend. They are the floor and its remainder exactly if the exact quotient is below two to
      the 63: there the guard still lets it through, and the cast overflows. */
  lemma FloorLaw(l: real, r: real, overflow: Word)
    requires FloorOp(FloorDiv, l, r, overflow).Made?
    ensures FloorOp(Percent, l, r, overflow).Made?
    ensures var d, m := FloorOp(FloorDiv, l, r, overflow).value, FloorOp(Percent, l, r, overflow).value;
      && d.NumV? && m.NumV? && d.num.Floor as real == d.num && d.num * r + m.num == l
      && (l / r < TWO_63 as real <==> d.num == (l / r).Floor as real)
      && (l / r < TWO_63 as real <==> IsRest(m.num, r))
  {
    hide FloorRest, Floored, IsRest;
    var q := l / r;
    var d := Floored(q, overflow);
    QuotientTimes(l, r);
    RestSplits(l, d, r);
    if q < TWO_63 as real {
      FlooredIsFloor(q, overflow);
      IsWhole(q.Floor);
      BoundedIsRest(l, q, d, r);
    } else {
      FlooredAtLimit(overflow);
      IsWhole(overflow);
      IsWhole(TWO_63);
      LargeIsNotRest(l, q, d, r);
    }
  }

  lemma IsWhole(i: int)
    ensures (i as real).Floor == i
  {
  }

  lemma BoundedIsRest(l: real, q: real, d: real, r: real)
    requires q * r == l && r != 0.0 && 0.0 <= q - d < 1.0
    ensures IsRest(FloorRest(l, d, r), r)
  {
    RestBound(l, q, d, r);
  }

  lemma LargeIsNotRest(l: real, q: real, d: real, r: real)
    requires q * r == l && r != 0.0 && q - d >= 1.0
    ensures !IsRest(FloorRest(l, d, r), r)
  {
    RestTooLarge(l, q, d, r);
  }

  /** Dividing two to the 63 by one gives whatever the cast happens to give. */
  lemma FloorOverflows(overflow: Word)
    ensures FloorOp(FloorDiv, TWO_63 as real, 1.0, overflow) == Made(NumV(overflow as real))
    ensures FloorOp(Percent, TWO_63 as real, 1.0, overflow) == Made(NumV(TWO_63 as real - overflow as real))
  {
    FlooredAtLimit(overflow);
  }

  // ---- bits --------------------------------------------------------------------------------

  /** The k-th bit of a number. */
  function Bit(x: int, k: nat): int
    decreases k
  {
    if k == 0 then x % 2 else Bit(x / 2, k - 1)
  }

  /** Each bit of the result combines the bits of the operands, and there are no more bits. */
  lemma {:induction false} BitwiseBits(op: Kind, a: int, b: int, bits: nat, k: nat)
    ensures Bit(Bitwise(op, a, b, bits), k) == if k < bits then BitOf(op, Bit(a, k), Bit(b, k)) else 0
    decreases bits
  {
    if bits == 0 {
      ZeroBits(k);
    } else {
      hide Bitwise;
      BitwiseStep(op, a, b, bits);
      if k > 0 {
        BitwiseBits(op, a / 2, b / 2, bits - 1, k - 1);
      }
    }
  }

  lemma BitwiseStep(op: Kind, a: int, b: int, bits: nat)
    requires bits > 0
    ensures Bitwise(op, a, b, bits) % 2 == BitOf(op, a % 2, b % 2)
    ensures Bitwise(op, a, b, bits) / 2 == Bitwise(op, a / 2, b / 2, bits - 1)
  {
    Halves(BitOf(op, a % 2, b % 2), Bitwise(op, a / 2, b / 2, bits - 1));
  }

  lemma Halves(bit: int, rest: nat)
    requires 0 <= bit <= 1
    ensures (bit + 2 * rest) % 2 == bit && (bit + 2 * rest) / 2 == rest
  {
  }

  lemma {:induction false} ZeroBits(k: nat)
    ensures Bit(0, k) == 0
    decreases k
  {
    if k > 0 {
      ZeroBits(k - 1);
    }
  }

  lemma BitPairs(x: int, y: int)
    requires 0 <= x <= 1 && 0 <= y <= 1
    ensures BitOf(BitAnd, x, y) + BitOf(BitOr, x, y) == x + y
    ensures BitOf(BitOr, x, y) - BitOf(BitAnd, x, y) == BitOf(Tilde, x, y)
  {
  }

  lemma BitwiseAt(op: Kind, a: int, b: int, bits: nat)
    requires bits > 0
    ensures Bitwise(op, a, b, bits) == BitOf(op, a % 2, b % 2) + 2 * Bitwise(op, a / 2, b / 2, bits - 1)
  {
    hide BitOf;
  }

  /** What two numbers have in common and what they have together add up to both. */
  lemma {:induction false} AndPlusOr(a: nat, b: nat, bits: nat)
    requires a < Pow2(bits) && b < Pow2(bits)
    ensures Bitwise(BitAnd, a, b, bits) + Bitwise(BitOr, a, b, bits) == a + b
    ensures Bitwise(BitOr, a, b, bits) - Bitwise(BitAnd, a, b, bits) == Bitwise(Tilde, a, b, bits)
    decreases bits
  {
    if bits > 0 {
      hide Bitwise, BitOf;
      AndPlusOr(a / 2, b / 2, bits - 1);
      BitwiseAt(BitAnd, a, b, bits);
      BitwiseAt(BitOr, a, b, bits);
      BitwiseAt(Tilde, a, b, bits);
      BitPairs(a % 2, b % 2);
    }
  }

  /** The complement of a 64-bit integer is the complement of its word, and its own inverse. */
  lemma ComplementLaw(i: int)
    requires -TWO_63 <= i < TWO_63
    ensures UnaryOp(Tilde, NumV(i as real), 0) == Made(NumV((-i - 1) as real))
    ensures Unsigned(-i - 1) == TWO_64 - 1 - Unsigned(i)
    ensures UnaryOp(Tilde, NumV((-i - 1) as real), 0) == Made(NumV(i as real))
  {
    assert (i as real).Floor == i && ((-i - 1) as real).Floor == -i - 1;
  }

  lemma Signs(u: int)
    requires 0 <= u < TWO_64
    ensures -TWO_63 <= Signed(u) < TWO_63 && Unsigned(Signed(u)) == u
  {
  }

  lemma {:induction false} PowSplit(n: nat, k: nat)
    requires k <= n
    ensures Pow2(k) * Pow2(n - k) == Pow2(n)
    decreases k
  {
    if k > 0 {
      PowSplit(n - 1, k - 1);
      Regroup(Pow2(k - 1), Pow2(n - k));
    }
  }

  lemma Regroup(a: int, b: int)
    ensures (2 * a) * b == 2 * (a * b)
  {
  }

  lemma Pow64()
    ensures Pow2(64) == TWO_64
  {
    assert Pow2(8) == 256;
    PowSplit(16, 8);
    PowSplit(32, 16);
    PowSplit(64, 32);
  }

  lemma ModScaled(u: int, p: int, q: int)
    requires p > 0 && q > 0 && u >= 0
    ensures (u * p) % (p * q) == p * (u % q) && (p * (u % q)) / p == u % q
  {
    var d, m := u / q, u % q;
    assert u * p == (p * q) * d + p * m by {
      assert u == q * d + m;
    }
    Bounded(p, m, q);
    Remainder(p * q, d, p * m, u * p);
    Divides(p, m);
  }

  lemma Bounded(p: int, m: int, q: int)
    requires p > 0 && 0 <= m < q
    ensures 0 <= p * m < p * q
  {
  }

  lemma Remainder(n: int, d: int, r: int, x: int)
    requires n > 0 && 0 <= r < n && x == n * d + r
    ensures x % n == r
  {
    SmallMultiple(n, x / n - d, r - x % n);
  }

  lemma Negated(n: int, k: int)
    ensures n * -k == -(n * k)
  {
  }

  lemma SmallMultiple(n: int, k: int, r: int)
    requires n > 0 && -n < r < n && n * k == r
    ensures k == 0
  {
    if k > 0 {
      Larger(n, k);
    } else if k < 0 {
      Larger(n, -k);
      Negated(n, k);
    }
  }

  lemma Divides(p: int, m: int)
    requires p > 0 && m >= 0
    ensures (p * m) / p == m
  {
    Remainder(p, m, 0, p * m);
  }

  /** Shifting left and back again keeps the low bits and clears the rest; shifting by the negative
      count is shifting the other way; shifting by 64 or more leaves nothing. */
  lemma ShiftLaws(x: int, n: int)
    requires -TWO_63 <= x < TWO_63 && 0 <= n < TWO_63
    ensures Shift(x, -n, true) == Shift(x, n, false) && Shift(x, -n, false) == Shift(x, n, true)
    ensures n >= 64 ==> Shift(x, n, true) == 0 == Shift(x, n, false)
    ensures 0 < n < 64 ==> Shift(Shift(x, n, true), n, false) == Unsigned(x) % Pow2(64 - n)
  {
    if 0 < n < 64 {
      var u, p, q := Unsigned(x), Pow2(n), Pow2(64 - n);
      Pow64();
      PowSplit(64, n);
      var word := (u * p) % TWO_64;
      Signs(word);
      ModScaled(u, p, q);
      assert Shift(x, n, true) == Signed(word);
      assert Unsigned(Signed(word)) / p == u % q;
      HalfRange(n);
      assert u % q < q <= TWO_63;
    }
  }

  lemma HalfRange(n: nat)
    requires 0 < n < 64
    ensures Pow2(64 - n) <= TWO_63
  {
    PowSplit(63, 64 - n);
    Pow64();
    assert Pow2(64) == 2 * Pow2(63);
    assert Pow2(n - 1) >= 1;
    assert Pow2(64 - n) * Pow2(n - 1) == Pow2(63);
    Larger(Pow2(64 - n), Pow2(n - 1));
  }

  lemma Larger(a: int, b: int)
    requires a >= 0 && b >= 1
    ensures a <= a * b
  {
  }

  // ---- order -------------------------------------------------------------------------------

  /** Strings are compared as in a dictionary: the comparison is a total order, and a proper prefix
      comes first. */
  lemma {:induction false} CompareMirrors(a: string, b: string)
    ensures Compare(a, b) == -Compare(b, a)
    ensures Compare(a, b) == 0 <==> a == b
    decreases |a|
  {
    if a != [] && b != [] && a[0] == b[0] {
      CompareMirrors(a[1..], b[1..]);
      assert a == [a[0]] + a[1..] && b == [b[0]] + b[1..];
    }
  }

  lemma {:induction false} CompareTransits(a: string, b: string, c: string)
    requires Compare(a, b) <= 0 && Compare(b, c) <= 0
    ensures Compare(a, c) <= 0
    decreases |a|
  {
    if a != [] && b != [] && c != [] && a[0] == b[0] == c[0] {
      CompareTransits(a[1..], b[1..], c[1..]);
    }
  }

  lemma {:induction false} PrefixFirst(a: string, b: string)
    requires b != []
    ensures Compare(a, a + b) < 0
    decreases |a|
  {
    if a == [] {
      assert a + b == b;
    } else {
      PrefixFirst(a[1..], b);
      assert (a + b)[1..] == a[1..] + b;
    }
  }

  /** The four comparisons agree with one another on numbers and on strings, and are refused on
      anything else. */
  lemma ComparisonsAgree(l: Value, r: Value)
    ensures (l.NumV? && r.NumV?) || (l.StrV? && r.StrV?) <==> CompareOp(Less, l, r).Made?
    ensures CompareOp(Less, l, r).Made? ==>
      && CompareOp(Less, l, r) == CompareOp(Greater, r, l) && CompareOp(LessEqual, l, r) == CompareOp(GreaterEqual, r, l)
      && CompareOp(LessEqual, l, r) == Made(BoolV(CompareOp(Less, l, r) == Made(BoolV(true)) || l == r))
      && !(CompareOp(Less, l, r) == Made(BoolV(true)) && CompareOp(Less, r, l) == Made(BoolV(true)))
      && (CompareOp(Less, l, r) == Made(BoolV(true)) || CompareOp(Less, r, l) == Made(BoolV(true)) || l == r)
  {
    if l.StrV? && r.StrV? {
      CompareMirrors(l.text, r.text);
    }
  }
}
