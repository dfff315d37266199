/** What operators give, in plain arithmetic, order and text: nothing here is said through the
    functions that compute it. */
module Meanings {
  import opened Tokens
  import opened Syntax
  import opened Values
  import opened Heap
  import opened Semantics
  import opened SemanticsSteps
  import Operators

  // ---- numbers -----------------------------------------------------------------------------

  /** An operator that is neither a test of equality nor `..` gives what its operands give. */
  lemma Gives(w: World, op: Kind, l: Value, r: Value, v: Value, s: State)
    requires op != EqualEqual && op != NotEqual && op != Concat && Operate(op, l, r, w.overflow) == Made(v)
    ensures FinishBinary(w, op, l, r, s) == Vals([v], s)
  {
    hide FinishBinary, Operate;
    FinishOperator(w, op, l, r, s);
  }

  lemma SumsAre(x: real, y: real, o: Word)
    ensures Operate(Plus, NumV(x), NumV(y), o) == Made(NumV(x + y))
    ensures Operate(Minus, NumV(x), NumV(y), o) == Made(NumV(x - y))
  {
    hide CompareOp, BitOp, FloorOp;
  }

  lemma ProductOf(l: Value, r: Value, o: Word)
    requires l.NumV? && r.NumV?
    ensures var q := Operate(Star, l, r, o); q.Made? && q.value.NumV? && q.value.num == l.num * r.num
  {
    hide CompareOp, BitOp, FloorOp;
  }

  lemma ProductIs(x: real, y: real, o: Word)
    ensures Operate(Star, NumV(x), NumV(y), o) == Made(NumV(x * y))
  {
    hide Operate;
    ProductOf(NumV(x), NumV(y), o);
    var q := Operate(Star, NumV(x), NumV(y), o);
    assert q.value.num == x * y;
  }

  lemma QuotientIs(x: real, y: real, o: Word)
    requires y != 0.0
    ensures Operate(Slash, NumV(x), NumV(y), o) == Made(NumV(x / y))
  {
    hide CompareOp, BitOp, FloorOp;
  }

  /** Sums, differences, products and quotients of numbers. */
  lemma ArithmeticIs(w: World, x: real, y: real, s: State)
    ensures FinishBinary(w, Plus, NumV(x), NumV(y), s) == Vals([NumV(x + y)], s)
    ensures FinishBinary(w, Minus, NumV(x), NumV(y), s) == Vals([NumV(x - y)], s)
    ensures FinishBinary(w, Star, NumV(x), NumV(y), s) == Vals([NumV(x * y)], s)
    ensures y != 0.0 ==> FinishBinary(w, Slash, NumV(x), NumV(y), s) == Vals([NumV(x / y)], s)
  {
    hide FinishBinary, Operate;
    SumsAre(x, y, w.overflow);
    ProductIs(x, y, w.overflow);
    Gives(w, Plus, NumV(x), NumV(y), NumV(x + y), s);
    Gives(w, Minus, NumV(x), NumV(y), NumV(x - y), s);
    Gives(w, Star, NumV(x), NumV(y), NumV(x * y), s);
    if y != 0.0 {
      QuotientIs(x, y, w.overflow);
      Gives(w, Slash, NumV(x), NumV(y), NumV(x / y), s);
    }
  }

  /** There is no division by zero. */
  lemma NoQuotient(w: World, x: real, op: Kind, s: State)
    requires op in {Slash, FloorDiv, Percent}
    ensures FinishBinary(w, op, NumV(x), NumV(0.0), s) == Stop(Fail(s, DivisionByZero))
  {
    hide FinishBinary, CompareOp, BitOp;
    FinishOperator(w, op, NumV(x), NumV(0.0), s);
  }

  lemma OrderOf(x: real, y: real, o: Word)
    ensures Operate(Less, NumV(x), NumV(y), o) == Made(BoolV(x < y))
    ensures Operate(LessEqual, NumV(x), NumV(y), o) == Made(BoolV(x <= y))
    ensures Operate(Greater, NumV(x), NumV(y), o) == Made(BoolV(x > y))
    ensures Operate(GreaterEqual, NumV(x), NumV(y), o) == Made(BoolV(x >= y))
  {
    hide Arithmetic, Compare;
  }

  /** The order of numbers, and equality of any two values. */
  lemma OrderIs(w: World, x: real, y: real, a: Value, b: Value, s: State)
    ensures FinishBinary(w, Less, NumV(x), NumV(y), s) == Vals([BoolV(x < y)], s)
    ensures FinishBinary(w, LessEqual, NumV(x), NumV(y), s) == Vals([BoolV(x <= y)], s)
    ensures FinishBinary(w, Greater, NumV(x), NumV(y), s) == Vals([BoolV(x > y)], s)
    ensures FinishBinary(w, GreaterEqual, NumV(x), NumV(y), s) == Vals([BoolV(x >= y)], s)
    ensures FinishBinary(w, EqualEqual, a, b, s) == Vals([BoolV(a == b)], s)
    ensures FinishBinary(w, NotEqual, a, b, s) == Vals([BoolV(a != b)], s)
  {
    hide FinishBinary, Operate;
    OrderOf(x, y, w.overflow);
    Gives(w, Less, NumV(x), NumV(y), BoolV(x < y), s);
    Gives(w, LessEqual, NumV(x), NumV(y), BoolV(x <= y), s);
    Gives(w, Greater, NumV(x), NumV(y), BoolV(x > y), s);
    Gives(w, GreaterEqual, NumV(x), NumV(y), BoolV(x >= y), s);
    FinishEasily(w, a, b, s);
  }

  /** Arithmetic takes numbers only, and a comparison two numbers or two strings. */
  lemma OperandsAre(w: World, op: Kind, a: Value, b: Value, s: State)
    requires op in {Plus, Minus, Star, Slash, FloorDiv, Percent, BitAnd, BitOr, Tilde, ShiftLeft, ShiftRight} ==>
               !a.NumV? || !b.NumV?
    requires op in {Less, LessEqual, Greater, GreaterEqual} ==> !(a.NumV? && b.NumV?) && !(a.StrV? && b.StrV?)
    requires op in {Plus, Minus, Star, Slash, FloorDiv, Percent, BitAnd, BitOr, Tilde, ShiftLeft, ShiftRight,
                    Less, LessEqual, Greater, GreaterEqual}
    ensures FinishBinary(w, op, a, b, s) == Stop(Fail(s, BadOperand))
  {
  }

  /** The prefix operators. */
  lemma PrefixesAre(x: real, t: string, v: Value, s: State)
    ensures FinishUnary(Minus, NumV(x), s) == Vals([NumV(0.0 - x)], s)
    ensures FinishUnary(Length, StrV(t), s) == Vals([NumV(|t| as real)], s)
    ensures FinishUnary(Not, v, s) == Vals([BoolV(v == NilV || v == BoolV(false))], s)
    ensures !v.NumV? ==> FinishUnary(Minus, v, s) == Stop(Fail(s, BadOperand))
    ensures !v.StrV? && !v.TabV? ==> FinishUnary(Length, v, s) == Stop(Fail(s, BadOperand))
  {
    hide Border;
  }

  // ---- words -------------------------------------------------------------------------------

  /** A number that is a 64-bit integer. */
  lemma IsInteger(x: int)
    requires -TWO_63 <= x < TWO_63
    ensures AsInteger(x as real) == Some(x)
  {
    assert (x as real).Floor == x;
  }

  predicate IsWhole(r: real) { IsInRange(r) && r.Floor as real == r }

  predicate IsInRange(r: real) { -9223372036854775808.0 <= r < 9223372036854775808.0 }

  /** What is not such an integer is refused, by its range or as not whole. */
  lemma NotInteger(w: World, op: Kind, x: real, y: real, s: State)
    requires op in {BitAnd, BitOr, Tilde, ShiftLeft, ShiftRight} && !(IsWhole(x) && IsWhole(y))
    ensures var bad := if IsWhole(x) then y else x;
      FinishBinary(w, op, NumV(x), NumV(y), s) == Stop(Fail(s, if IsInRange(bad) then BadOperand else OutOfRange))
  {
    hide Bitwise, Shift, FinishBinary, Fail;
    FinishOperator(w, op, NumV(x), NumV(y), s);
  }

  predicate IsBit(x: int, k: nat) { Operators.Bit(x, k) == 1 }

  function WordOf(x: int): int { if x < 0 then x + 18446744073709551616 else x }

  lemma {:induction false} BitwiseFits(op: Kind, a: int, b: int, bits: nat)
    ensures Bitwise(op, a, b, bits) < Pow2(bits)
    decreases bits
  {
    hide BitOf;
    if bits > 0 {
      BitwiseFits(op, a / 2, b / 2, bits - 1);
      assert 0 <= BitOf(op, a % 2, b % 2) <= 1 by { OneBit(op, a % 2, b % 2); }
    }
  }

  lemma WordFits(op: Kind, a: int, b: int)
    ensures Bitwise(op, a, b, 64) < TWO_64
  {
    hide Bitwise, Pow2;
    BitwiseFits(op, a, b, 64);
    Operators.Pow64();
  }

  lemma OneBit(op: Kind, x: int, y: int)
    ensures 0 <= BitOf(op, x, y) <= 1
  {
  }

  /** What an operator on words gives for two integers. */
  lemma OnWords(op: Kind, x: int, y: int, o: Word)
    requires -TWO_63 <= x < TWO_63 && -TWO_63 <= y < TWO_63
    ensures op == BitAnd || op == BitOr || op == Tilde ==>
      Operate(op, NumV(x as real), NumV(y as real), o) == Made(NumV(Signed(Bitwise(op, Unsigned(x), Unsigned(y), 64)) as real))
    ensures op == ShiftLeft || op == ShiftRight ==>
      Operate(op, NumV(x as real), NumV(y as real), o) == Made(NumV(Shift(x, y, op == ShiftLeft) as real))
  {
    hide Bitwise, CompareOp, Shift, FloorOp, Signed, Unsigned, AsInteger;
    IsInteger(x);
    IsInteger(y);
  }

  /** One bit of the combination of two words. */
  lemma BitIs(op: Kind, x: int, y: int, k: nat)
    requires k < 64 && (op == BitAnd || op == BitOr || op == Tilde)
    ensures var a, b := IsBit(x, k), IsBit(y, k);
      IsBit(Bitwise(op, x, y, 64), k) <==> if op == BitAnd then a && b else if op == BitOr then a || b else a != b
  {
    hide Bitwise, Operators.Bit;
    Operators.BitwiseBits(op, x, y, 64, k);
    ZeroOrOne(x, k);
    ZeroOrOne(y, k);
  }

  /** A bit of the combination is set if it is set in both operands, in one at least, or in exactly one. */
  ghost predicate Combines(op: Kind, x: int, y: int, z: int) {
    forall k: nat | k < 64 ::
      IsBit(z, k) <==>
        if op == BitAnd then IsBit(x, k) && IsBit(y, k)
        else if op == BitOr then IsBit(x, k) || IsBit(y, k)
        else IsBit(x, k) != IsBit(y, k)
  }

  lemma BitsOf(op: Kind, x: int, y: int)
    requires op == BitAnd || op == BitOr || op == Tilde
    ensures Combines(op, x, y, Bitwise(op, x, y, 64))
  {
    hide Bitwise, IsBit;
    forall k: nat | k < 64
      ensures IsBit(Bitwise(op, x, y, 64), k) <==>
        if op == BitAnd then IsBit(x, k) && IsBit(y, k)
        else if op == BitOr then IsBit(x, k) || IsBit(y, k)
        else IsBit(x, k) != IsBit(y, k)
    {
      BitIs(op, x, y, k);
    }
  }

  lemma BitsOfWords(op: Kind, x: int, y: int) returns (z: Word)
    requires -TWO_63 <= x < TWO_63 && -TWO_63 <= y < TWO_63 && (op == BitAnd || op == BitOr || op == Tilde)
    ensures z == Signed(Bitwise(op, Unsigned(x), Unsigned(y), 64)) && Combines(op, WordOf(x), WordOf(y), WordOf(z))
  {
    hide Bitwise, Combines, WordOf, Signed, Unsigned;
    var u := Bitwise(op, WordOf(x), WordOf(y), 64);
    WordFits(op, WordOf(x), WordOf(y));
    Words(x);
    Words(y);
    Words(u);
    z := Signed(u);
    BitsOf(op, WordOf(x), WordOf(y));
  }

  /** The word that a bitwise operator gives. */
  lemma BitsAre(w: World, op: Kind, x: int, y: int, s: State) returns (z: Word)
    requires -TWO_63 <= x < TWO_63 && -TWO_63 <= y < TWO_63 && (op == BitAnd || op == BitOr || op == Tilde)
    ensures FinishBinary(w, op, NumV(x as real), NumV(y as real), s) == Vals([NumV(z as real)], s)
    ensures Combines(op, WordOf(x), WordOf(y), WordOf(z))
  {
    hide Bitwise, Combines, FinishBinary, Operate, WordOf, Signed, Unsigned;
    z := BitsOfWords(op, x, y);
    OnWords(op, x, y, w.overflow);
    Gives(w, op, NumV(x as real), NumV(y as real), NumV(z as real), s);
  }

  lemma Words(x: int)
    ensures WordOf(x) == Unsigned(x)
    ensures 0 <= x < TWO_64 ==> -TWO_63 <= Signed(x) < TWO_63 && WordOf(Signed(x)) == x
  {
  }

  lemma {:induction false} ZeroOrOne(x: int, k: nat)
    ensures 0 <= Operators.Bit(x, k) <= 1
    decreases k
  {
    if k > 0 { ZeroOrOne(x / 2, k - 1); }
  }

  function PowerOfTwo(n: nat): (p: nat)
    ensures p >= 1
  {
    if n == 0 then 1 else PowerOfTwo(n - 1) + PowerOfTwo(n - 1)
  }

  lemma {:induction false} PowersAgree(n: nat)
    ensures Pow2(n) == PowerOfTwo(n)
  {
    if n > 0 { PowersAgree(n - 1); }
  }

  /** Shifting left multiplies by a power of two, modulo two to the 64; shifting right divides the word by
      one; a negative count shifts the other way, and from 64 on nothing is left. */
  lemma ShiftsAre(w: World, x: int, n: int, s: State) returns (l: Word, r: Word)
    requires -TWO_63 <= x < TWO_63 && 0 <= n < TWO_63
    ensures FinishBinary(w, ShiftLeft, NumV(x as real), NumV(n as real), s) == Vals([NumV(l as real)], s)
    ensures FinishBinary(w, ShiftRight, NumV(x as real), NumV(n as real), s) == Vals([NumV(r as real)], s)
    ensures FinishBinary(w, ShiftRight, NumV(x as real), NumV((-n) as real), s) == Vals([NumV(l as real)], s)
    ensures FinishBinary(w, ShiftLeft, NumV(x as real), NumV((-n) as real), s) == Vals([NumV(r as real)], s)
    ensures n < 64 ==> (l - x * PowerOfTwo(n)) % 18446744073709551616 == 0
    ensures n == 0 ==> r == x
    ensures 0 < n < 64 ==> r == WordOf(x) / PowerOfTwo(n)
    ensures n >= 64 ==> l == r == 0
  {
    hide Pow2, PowerOfTwo, FinishBinary, Operate, Shift, WordOf;
    l, r := 0, 0;
    Operators.ShiftLaws(x, n);
    if n < 64 {
      PowersAgree(n);
      l := LeftIs(x, n);
      r := RightIs(x, n);
    }
    Shifted(w, x, n, true, l, s);
    Shifted(w, x, n, false, r, s);
    if n > 0 {
      Shifted(w, x, -n, false, l, s);
      Shifted(w, x, -n, true, r, s);
    }
  }

  /** A shift operator gives the shifted word. */
  lemma Shifted(w: World, x: int, n: int, leftwards: bool, z: Word, s: State)
    requires -TWO_63 <= x < TWO_63 && -TWO_63 <= n < TWO_63 && Shift(x, n, leftwards) == z
    ensures FinishBinary(w, if leftwards then ShiftLeft else ShiftRight, NumV(x as real), NumV(n as real), s) == Vals([NumV(z as real)], s)
  {
    hide Shift, FinishBinary, Operate;
    var op := if leftwards then ShiftLeft else ShiftRight;
    OnWords(op, x, n, w.overflow);
    Gives(w, op, NumV(x as real), NumV(n as real), NumV(z as real), s);
  }

  lemma LeftIs(x: int, n: nat) returns (l: Word)
    requires -TWO_63 <= x < TWO_63 && n < 64
    ensures l == Shift(x, n, true) && (l - x * Pow2(n)) % 18446744073709551616 == 0
  {
    hide Pow2;
    var p := Pow2(n);
    var u := Unsigned(x) * p;
    assert 0 <= u by { Product(Unsigned(x), p); }
    l := Signed(u % TWO_64);
    var q := u / TWO_64;
    assert u == q * TWO_64 + u % TWO_64;
    var k := (if x < 0 then p else 0) - q - (if u % TWO_64 >= TWO_63 then 1 else 0);
    Spread(x, p);
    assert l - x * p == k * TWO_64;
    Multiple(k);
  }

  lemma Product(a: int, b: int)
    requires a >= 0 && b >= 0
    ensures a * b >= 0
  {
  }

  lemma Spread(x: int, p: int)
    ensures Unsigned(x) * p == x * p + (if x < 0 then p * TWO_64 else 0)
  {
  }

  lemma Multiple(k: int)
    ensures (k * TWO_64) % TWO_64 == 0
  {
  }

  lemma RightIs(x: int, n: nat) returns (r: Word)
    requires -TWO_63 <= x < TWO_63 && n < 64
    ensures r == Shift(x, n, false) && (n == 0 ==> r == x) && (n > 0 ==> r == WordOf(x) / Pow2(n))
  {
    var u := WordOf(x);
    if n == 0 {
      assert u / 1 == u;
      r := x;
    } else {
      assert Pow2(n) >= 2;
      Halved(u, Pow2(n));
      r := u / Pow2(n);
    }
  }

  lemma Halved(u: int, p: int)
    requires 0 <= u < TWO_64 && p >= 2
    ensures 0 <= u / p < TWO_63
  {
    var q := u / p;
    assert q * p <= u;
    if q >= TWO_63 {
      AtLeast(q, p);
    }
  }

  lemma AtLeast(q: int, p: int)
    requires q >= TWO_63 && p >= 2
    ensures q * p >= TWO_64
  {
    assert q * p >= q * 2;
  }

  // ---- strings -----------------------------------------------------------------------------

  /** a comes before b: they agree up to somewhere, and there a ends or has the smaller byte. */
  ghost predicate Before(a: string, b: string) { exists k: nat :: BeforeAt(a, b, k) }

  predicate BeforeAt(a: string, b: string, k: nat) {
    k <= |a| && k < |b| && a[..k] == b[..k] && (k == |a| || a[k] < b[k])
  }

  /** The sign of the comparison of two strings is their order. */
  lemma {:induction false} CompareIs(a: string, b: string)
    ensures Compare(a, b) < 0 <==> Before(a, b)
    decreases |a|
  {
    if a != [] && b != [] && a[0] == b[0] {
      CompareIs(a[1..], b[1..]);
      if Before(a[1..], b[1..]) {
        var k: nat :| BeforeAt(a[1..], b[1..], k);
        assert a[..k + 1] == [a[0]] + a[1..][..k] && b[..k + 1] == [b[0]] + b[1..][..k];
        assert BeforeAt(a, b, k + 1);
      }
      if Before(a, b) {
        var k: nat :| BeforeAt(a, b, k);
        assert k > 0;
        assert a[1..][..k - 1] == a[..k][1..] && b[1..][..k - 1] == b[..k][1..];
        assert BeforeAt(a[1..], b[1..], k - 1);
      }
    } else {
      if Before(a, b) {
        var k: nat :| BeforeAt(a, b, k);
        if k > 0 { SameFirst(a, b, k); }
      }
      assert b != [] && (a == [] || a[0] < b[0]) ==> BeforeAt(a, b, 0);
    }
  }

  lemma SameFirst(a: string, b: string, k: nat)
    requires BeforeAt(a, b, k) && k > 0
    ensures a[0] == b[0]
  {
    assert a[0] == a[..k][0] && b[0] == b[..k][0];
  }

  lemma TextOrderOf(a: string, b: string, o: Word)
    ensures Operate(Less, StrV(a), StrV(b), o) == Made(BoolV(Before(a, b)))
    ensures Operate(Greater, StrV(a), StrV(b), o) == Made(BoolV(Before(b, a)))
    ensures Operate(LessEqual, StrV(a), StrV(b), o) == Made(BoolV(a == b || Before(a, b)))
    ensures Operate(GreaterEqual, StrV(a), StrV(b), o) == Made(BoolV(a == b || Before(b, a)))
  {
    hide Compare, Before, Arithmetic;
    CompareIs(a, b);
    CompareIs(b, a);
    Operators.CompareMirrors(a, b);
  }

  /** The order of strings is that of their first differing bytes. */
  lemma TextOrderIs(w: World, a: string, b: string, s: State)
    ensures FinishBinary(w, Less, StrV(a), StrV(b), s) == Vals([BoolV(Before(a, b))], s)
    ensures FinishBinary(w, Greater, StrV(a), StrV(b), s) == Vals([BoolV(Before(b, a))], s)
    ensures FinishBinary(w, LessEqual, StrV(a), StrV(b), s) == Vals([BoolV(a == b || Before(a, b))], s)
    ensures FinishBinary(w, GreaterEqual, StrV(a), StrV(b), s) == Vals([BoolV(a == b || Before(b, a))], s)
  {
    hide Before, FinishBinary, Operate;
    TextOrderOf(a, b, w.overflow);
    Gives(w, Less, StrV(a), StrV(b), BoolV(Before(a, b)), s);
    Gives(w, Greater, StrV(a), StrV(b), BoolV(Before(b, a)), s);
    Gives(w, LessEqual, StrV(a), StrV(b), BoolV(a == b || Before(a, b)), s);
    Gives(w, GreaterEqual, StrV(a), StrV(b), BoolV(a == b || Before(b, a)), s);
  }

  /** `..` puts the right text after the left one; numbers are shown as text, and nothing else has any. */
  lemma ConcatIs(w: World, a: string, b: string, x: real, l: Value, r: Value, s: State)
    requires w.grants(s.allocations)
    ensures var t := s.(allocations := s.allocations + 1);
      && FinishBinary(w, Concat, StrV(a), StrV(b), s) == Vals([StrV(a + b)], t)
      && FinishBinary(w, Concat, StrV(a), NumV(x), s) == Vals([StrV(a + w.show(x))], t)
      && FinishBinary(w, Concat, NumV(x), StrV(b), s) == Vals([StrV(w.show(x) + b)], t)
    ensures !(l.StrV? || l.NumV?) || !(r.StrV? || r.NumV?) ==> FinishBinary(w, Concat, l, r, s) == Stop(Fail(s, BadOperand))
  {
  }

  // ---- keys --------------------------------------------------------------------------------

  /** Strings and 64-bit integers are keys; reading at another value fails, and so does storing. */
  lemma KeysAre(w: World, t: nat, k: Value, v: Value, s: State)
    requires t < |s.tables|
    ensures k.StrV? || (k.NumV? && IsWhole(k.num)) ==> TableGet(TabV(t), k, s).Vals?
    ensures !k.StrV? && !k.NumV? ==>
      TableGet(TabV(t), k, s) == Stop(Fail(s, BadKey)) && TableSet(w, s, t, k, v) == Done(false, Fail(s, BadKey))
    ensures k.NumV? && !IsWhole(k.num) ==>
      var f := if IsInRange(k.num) then BadOperand else OutOfRange;
      TableGet(TabV(t), k, s) == Stop(Fail(s, f)) && TableSet(w, s, t, k, v) == Done(false, Fail(s, f))
  {
    hide Fail, RowValue, RowOf, ReserveRow, AddRow, TableDrop;
  }
}
