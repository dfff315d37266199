/** Values of a running Book, and the operators on them. */
module Values {
  import opened Tokens
  import opened Syntax

  /** Tables, closures and natives are known by their position in the runtime's heap. */
  datatype Value =
    | NilV
    | BoolV(flag: bool)
    | NumV(num: real)
    | StrV(text: string)
    | TabV(table: nat)
    | FunV(closure: nat)
    | NatV(native: nat)

  /** Why a run stopped. */
  datatype Fault =
    | OutOfInstructions | DeadlinePassed | OutOfMemory | TooManyValues | TooDeep | TooManyBindings | TooManyEntries
    | BadNumeral | BadString | BadKey | BadOperand | OutOfRange | DivisionByZero | NotATable | NotCallable | BadLoopBounds
    | NoVarargs | BreakEscaped | BadDestination | UnsupportedOperator | BadDeclaration | DeclaredInModule | NotDeclared | NativeFailed

  /** Faults that only an ill-formed program could cause. */
  predicate IllFormed(f: Fault) {
    f == BreakEscaped || f == BadDestination || f == NoVarargs || f == UnsupportedOperator || f == BadString
  }

  /** The fault that a run reports, which is the first one, and whether any of its faults, reported or
      not, was one that only an ill-formed program could cause. */
  datatype Faults = Faults(first: Option<Fault>, illFormed: bool)

  const NO_FAULT := Faults(None, false)

  const INSTRUCTION_LIMIT: nat := 1000000
  const DEPTH_LIMIT: nat := 64
  const MULTI_LIMIT: nat := 64
  const ENTRY_LIMIT: nat := 65536
  const BINDING_LIMIT: nat := 65536

  predicate Truthy(v: Value) { v != NilV && v != BoolV(false) }

  /** Adjusted to one value. */
  function First(vs: seq<Value>): Value { if vs == [] then NilV else vs[0] }

  /** The i-th of some values; nil beyond the last. */
  function Nth(vs: seq<Value>, i: nat): Value { if i < |vs| then vs[i] else NilV }

  // ---- integers ----------------------------------------------------------------------------

  const TWO_63: int := 0x8000_0000_0000_0000
  const TWO_64: int := 0x1_0000_0000_0000_0000

  /** A number used as a 64-bit integer: it must be integral and in range. */
  function AsInteger(r: real): (n: Option<int>)
    ensures n.Some? <==> -(TWO_63 as real) <= r < TWO_63 as real && r.Floor as real == r
    ensures n.Some? ==> n.value as real == r && -TWO_63 <= n.value < TWO_63
  {
    if -(TWO_63 as real) <= r < TWO_63 as real && r.Floor as real == r then Some(r.Floor) else None
  }

  function IntegerFault(r: real): Fault {
    if -(TWO_63 as real) <= r < TWO_63 as real then BadOperand else OutOfRange
  }

  function Unsigned(i: int): int { if i < 0 then i + TWO_64 else i }

  function Signed(u: int): int { if u >= TWO_63 then u - TWO_64 else u }

  function BitOf(op: Kind, x: int, y: int): nat {
    match op
    case BitAnd => if x == 1 && y == 1 then 1 else 0
    case BitOr => if x == 1 || y == 1 then 1 else 0
    case _ => if x != y then 1 else 0
  }

  /** Two's-complement bitwise combination of the low `bits` bits. */
  function Bitwise(op: Kind, a: int, b: int, bits: nat): nat
    decreases bits
  {
    if bits == 0 then 0
    else
      BitOf(op, a % 2, b % 2) + 2 * Bitwise(op, a / 2, b / 2, bits - 1)
  }

  function Pow2(n: nat): (r: nat)
    ensures r >= 1
  {
    if n == 0 then 1 else 2 * Pow2(n - 1)
  }

  /** Logical shift of a 64-bit word; a negative count shifts the other way. */
  function Shift(l: int, r: int, leftwards: bool): int {
    if r == -TWO_63 || r >= 64 || -r >= 64 then 0
    else
      var leftwards', n := if r < 0 then !leftwards else leftwards, if r < 0 then -r else r;
      if leftwards' then Signed((Unsigned(l) * Pow2(n)) % TWO_64) else Signed(Unsigned(l) / Pow2(n))
  }

  // ---- operators ---------------------------------------------------------------------------

  /** Byte order of two strings: negative, zero or positive. */
  function Compare(a: string, b: string): int {
    if a == [] && b == [] then 0
    else if a == [] then -1
    else if b == [] then 1
    else if a[0] != b[0] then a[0] as int - b[0] as int
    else Compare(a[1..], b[1..])
  }

  /** The value of an operator, or the reason it has none; an operator may fail without saying why. */
  datatype Operated = Made(value: Value) | Refused(why: Option<Fault>)

  /** `length` is the length of v when v is a table. */
  function UnaryOp(op: Kind, v: Value, length: nat): Operated {
    if op == Not then Made(BoolV(!Truthy(v)))
    else if op == Minus then (if v.NumV? then Made(NumV(-v.num)) else Refused(Some(BadOperand)))
    else if op == Length then
      if v.StrV? then Made(NumV(|v.text| as real))
      else if v.TabV? then Made(NumV(length as real))
      else Refused(Some(BadOperand))
    else if op != Tilde then Refused(Some(UnsupportedOperator))
    else if !v.NumV? then Refused(None)
    else match AsInteger(v.num)
      case None => Refused(Some(IntegerFault(v.num)))
      case Some(i) => Made(NumV((-i - 1) as real))
  }

  predicate IsComparison(op: Kind) { op == Less || op == LessEqual || op == Greater || op == GreaterEqual }

  function Ordered(op: Kind, comparison: int): bool {
    if op == Less then comparison < 0
    else if op == LessEqual then comparison <= 0
    else if op == Greater then comparison > 0
    else comparison >= 0
  }

  function CompareOp(op: Kind, l: Value, r: Value): Operated {
    if l.NumV? && r.NumV? then
      Made(BoolV(Ordered(op, if l.num < r.num then -1 else if l.num > r.num then 1 else 0)))
    else if l.StrV? && r.StrV? then Made(BoolV(Ordered(op, Compare(l.text, r.text))))
    else Refused(Some(BadOperand))
  }

  /** What is left of l after d times r. */
  function FloorRest(l: real, d: real, r: real): real { l - d * r }

  /** A 64-bit integer. */
  type Word = i: int | -TWO_63 <= i < TWO_63

  /** A number in range cut off towards zero; `overflow` is what the cast of a number that does not
      fit happens to give. */
  function Cast(q: real, overflow: Word): int {
    if q >= TWO_63 as real || q < -(TWO_63 as real) then overflow else if q >= 0.0 then q.Floor else -(-q).Floor
  }

  /** The cast, and one less if that is above the number. */
  function Floored(q: real, overflow: Word): real {
    var t := Cast(q, overflow) as real;
    if t > q then t - 1.0 else t
  }

  /** The guard lets a quotient of exactly two to the 63 through to the cast. */
  function FloorOp(op: Kind, l: real, r: real, overflow: Word): Operated {
    if r == 0.0 then Refused(Some(DivisionByZero))
    else
      var q := l / r;
      if q < -(TWO_63 as real) || q > TWO_63 as real then Refused(Some(OutOfRange))
      else Made(NumV(if op == FloorDiv then Floored(q, overflow) else FloorRest(l, Floored(q, overflow), r)))
  }

  function BitOp(op: Kind, l: real, r: real): Operated {
    match AsInteger(l)
    case None => Refused(Some(IntegerFault(l)))
    case Some(a) =>
      match AsInteger(r)
      case None => Refused(Some(IntegerFault(r)))
      case Some(b) =>
        if op == ShiftLeft then Made(NumV(Shift(a, b, true) as real))
        else if op == ShiftRight then Made(NumV(Shift(a, b, false) as real))
        else Made(NumV(Signed(Bitwise(op, Unsigned(a), Unsigned(b), 64)) as real))
  }

  predicate IsBitOp(op: Kind) { op == BitAnd || op == BitOr || op == Tilde || op == ShiftLeft || op == ShiftRight }

  /** Operators whose operands are both numbers. */
  function Arithmetic(op: Kind, l: Value, r: Value, overflow: Word): Operated {
    if !l.NumV? || !r.NumV? then Refused(Some(BadOperand))
    else if op == Plus then Made(NumV(l.num + r.num))
    else if op == Minus then Made(NumV(l.num - r.num))
    else if op == Star then Made(NumV(l.num * r.num))
    else if op == Slash then (if r.num == 0.0 then Refused(Some(DivisionByZero)) else Made(NumV(l.num / r.num)))
    else if op == FloorDiv || op == Percent then FloorOp(op, l.num, r.num, overflow)
    else if IsBitOp(op) then BitOp(op, l.num, r.num)
    else Refused(Some(UnsupportedOperator))
  }

  /** The text of an operand of `..`. */
  function ConcatText(v: Value, show: real -> string): Option<string> {
    if v.StrV? then Some(v.text) else if v.NumV? then Some(show(v.num)) else None
  }
}
