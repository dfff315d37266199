/** The lexical grammar of the Book language, as functions of the source bytes and a position in them. */
module Lexis {
  import opened Tokens
  import opened Syntax

  const SOURCE_LIMIT: nat := 1024 * 1024
  const TOKEN_LIMIT: nat := 262144

  // ---- bytes -------------------------------------------------------------------------------

  predicate IsSpace(c: char) {
    c == ' ' || c == '\t' || c == '\U{B}' || c == '\U{C}' || c == '\r' || c == '\n'
  }

  predicate IsAlpha(c: char) { 'A' <= c <= 'Z' || 'a' <= c <= 'z' || c == '_' }

  predicate IsDigit(c: char) { '0' <= c <= '9' }

  predicate IsAlnum(c: char) { IsAlpha(c) || IsDigit(c) }

  predicate IsHex(c: char) { IsDigit(c) || 'a' <= c <= 'f' || 'A' <= c <= 'F' }

  predicate IsLineByte(c: char) { c != '\r' && c != '\n' }

  predicate IsEquals(c: char) { c == '=' }

  predicate IsQuote(c: char) { c == '"' || c == '\'' }

  predicate At(src: string, i: nat, c: char) { i < |src| && src[i] == c }

  predicate DigitAt(src: string, i: nat) { i < |src| && IsDigit(src[i]) }

  predicate HexAt(src: string, i: nat) { i < |src| && IsHex(src[i]) }

  predicate AlphaAt(src: string, i: nat) { i < |src| && IsAlpha(src[i]) }

  /** The first position from i on, or `end`, whose byte fails p. */
  function Run(src: string, i: nat, end: nat, p: char -> bool): (r: nat)
    requires i <= end <= |src|
    ensures i <= r <= end
    ensures forall k :: i <= k < r ==> p(src[k])
    ensures r < end ==> !p(src[r])
    decreases end - i
  {
    if i < end && p(src[i]) then Run(src, i + 1, end, p) else i
  }

  // ---- positions ---------------------------------------------------------------------------

  datatype Position = Position(line: nat, column: nat)

  /** The position after some source: a carriage return, a line feed, or the two together end a line. */
  function Place(s: string): Position {
    if s == [] then Position(1, 1)
    else
      var front, c := s[..|s| - 1], s[|s| - 1];
      var p := Place(front);
      if c == '\n' && front != [] && front[|front| - 1] == '\r' then p
      else if c == '\r' || c == '\n' then Position(p.line + 1, 1)
      else Position(p.line, p.column + 1)
  }

  /** A position between a carriage return and its line feed. */
  predicate SplitsLineEnd(src: string, i: nat) { 0 < i < |src| && src[i - 1] == '\r' && src[i] == '\n' }

  // ---- what is skipped ---------------------------------------------------------------------

  predicate LongBracketAt(src: string, i: nat) {
    At(src, i, '[') && At(src, Run(src, i + 1, |src|, IsEquals), '[')
  }

  predicate CommentAt(src: string, i: nat) { At(src, i, '-') && At(src, i + 1, '-') }

  /** Where the whitespace and line comments from i on end; long-bracket comments are refused. */
  function Ignored(src: string, i: nat): (r: Option<nat>)
    requires i <= |src|
    ensures r.Some? ==> i <= r.value <= |src| && (r.value < |src| ==> !IsSpace(src[r.value]) && !CommentAt(src, r.value))
    decreases |src| - i
  {
    var j := Run(src, i, |src|, IsSpace);
    if !CommentAt(src, j) then Some(j)
    else if LongBracketAt(src, j + 2) then None
    else Ignored(src, Run(src, j + 2, |src|, IsLineByte))
  }

  // ---- tokens ------------------------------------------------------------------------------

  /** A token's kind, the bytes that are its text, and where lexing goes on. */
  datatype Scan = Scan(kind: Kind, start: nat, length: nat, next: nat)

  const KEYWORDS: seq<Kind> := [And, Break, Do, Else, Elseif, End, False, For, Function, If, In, Local, Nil, Not, Or, Return,
                                Then, True, While]

  const UNSUPPORTED: seq<string> := ["goto", "repeat", "until"]

  /** The keyword spelled t from the k-th on, or Identifier. */
  function KeywordFrom(t: string, k: nat): Kind
    requires k <= |KEYWORDS|
    decreases |KEYWORDS| - k
  {
    if k == |KEYWORDS| then Identifier
    else if Spelling(KEYWORDS[k]) == t then KEYWORDS[k]
    else KeywordFrom(t, k + 1)
  }

  function ScanWord(src: string, i: nat): (r: Option<Scan>)
    requires AlphaAt(src, i)
    ensures r.Some? ==> i == r.value.start < r.value.next == r.value.start + r.value.length <= |src|
  {
    var e := Run(src, i, |src|, IsAlnum);
    if src[i..e] in UNSUPPORTED then None else Some(Scan(KeywordFrom(src[i..e], 0), i, e - i, e))
  }

  /** Where digits, with at most one point among them, end. */
  function MantissaEnd(src: string, i: nat): (r: nat)
    requires i <= |src|
    ensures i <= r <= |src|
    ensures DigitAt(src, i) || (At(src, i, '.') && DigitAt(src, i + 1)) ==> i < r
  {
    if At(src, i, '.') then Run(src, i + 1, |src|, IsDigit)
    else
      var j := Run(src, i, |src|, IsDigit);
      if At(src, j, '.') && !At(src, j + 1, '.') then Run(src, j + 1, |src|, IsDigit) else j
  }

  /** Where an optional exponent ends. */
  function ExponentEnd(src: string, i: nat): (r: Option<nat>)
    requires i <= |src|
    ensures r.Some? ==> i <= r.value <= |src|
  {
    if !At(src, i, 'e') && !At(src, i, 'E') then Some(i)
    else
      var j := if At(src, i + 1, '+') || At(src, i + 1, '-') then i + 2 else i + 1;
      if !DigitAt(src, j) then None else Some(Run(src, j, |src|, IsDigit))
  }

  function HexEnd(src: string, i: nat): (r: Option<nat>)
    requires i + 2 <= |src|
    ensures r.Some? ==> i + 2 < r.value <= |src|
  {
    if !HexAt(src, i + 2) then None else Some(Run(src, i + 2, |src|, IsHex))
  }

  predicate HexPrefixAt(src: string, i: nat) { At(src, i, '0') && (At(src, i + 1, 'x') || At(src, i + 1, 'X')) }

  /** Where a numeral ends; a letter cannot follow it directly. */
  function NumberEnd(src: string, i: nat): (r: Option<nat>)
    requires DigitAt(src, i) || (At(src, i, '.') && DigitAt(src, i + 1))
    ensures r.Some? ==> i < r.value <= |src|
  {
    var e := if HexPrefixAt(src, i) then HexEnd(src, i) else ExponentEnd(src, MantissaEnd(src, i));
    if e.Some? && AlphaAt(src, e.value) then None else e
  }

  function ScanNumber(src: string, i: nat): (r: Option<Scan>)
    requires DigitAt(src, i) || (At(src, i, '.') && DigitAt(src, i + 1))
    ensures r.Some? ==> i == r.value.start < r.value.next == r.value.start + r.value.length <= |src|
  {
    var e := NumberEnd(src, i);
    if e.None? then None else Some(Scan(Number, i, e.value - i, e.value))
  }

  // ---- strings -----------------------------------------------------------------------------

  function SimpleEscape(c: char): Option<char> {
    match c
    case 'a' => Some('\U{7}') case 'b' => Some('\U{8}') case 'f' => Some('\U{C}') case 'n' => Some('\n')
    case 'r' => Some('\r') case 't' => Some('\t') case 'v' => Some('\U{B}')
    case '\\' => Some('\\') case '"' => Some('"') case '\'' => Some('\'')
    case _ => None
  }

  /** Where the digits of a decimal escape end: three at most. */
  function DecimalEnd(src: string, i: nat, end: nat): (r: nat)
    requires i < end <= |src|
    ensures i < r <= end && r <= i + 3
  {
    if i + 1 < end && IsDigit(src[i + 1]) then (if i + 2 < end && IsDigit(src[i + 2]) then i + 3 else i + 2) else i + 1
  }

  function DigitValue(c: char): int { c as int - '0' as int }

  function DecimalValue(src: string, i: nat, e: nat): int
    requires i <= e <= |src|
    decreases e - i
  {
    if i == e then 0 else 10 * DecimalValue(src, i, e - 1) + DigitValue(src[e - 1])
  }

  /** The position after an end of line. */
  function PastLineEnd(src: string, i: nat): (r: nat)
    requires i < |src|
    ensures i < r <= |src|
  {
    if src[i] == '\r' && At(src, i + 1, '\n') then i + 2 else i + 1
  }

  /** Where the escape sequence whose backslash is just before i ends. */
  function EscapeEnd(src: string, i: nat): (r: Option<nat>)
    requires i <= |src|
    ensures r.Some? ==> i < r.value <= |src|
  {
    if i == |src| then None
    else if SimpleEscape(src[i]).Some? then Some(i + 1)
    else if src[i] == 'x' then (if HexAt(src, i + 1) && HexAt(src, i + 2) then Some(i + 3) else None)
    else if IsDigit(src[i]) then
      var e := DecimalEnd(src, i, |src|);
      if DecimalValue(src, i, e) > 255 then None else Some(e)
    else if src[i] == 'z' then Some(Run(src, i + 1, |src|, IsSpace))
    else if !IsLineByte(src[i]) then Some(PastLineEnd(src, i))
    else None
  }

  /** The position of the quote that closes a string whose content goes on at i. */
  function StringEnd(src: string, i: nat, quote: char): (r: Option<nat>)
    requires i <= |src|
    ensures r.Some? ==> i <= r.value < |src| && src[r.value] == quote
    decreases |src| - i
  {
    if i == |src| || src[i] == '\0' then None
    else if src[i] == quote then Some(i)
    else if !IsLineByte(src[i]) then None
    else if src[i] != '\\' then StringEnd(src, i + 1, quote)
    else
      var e := EscapeEnd(src, i + 1);
      if e.None? then None else StringEnd(src, e.value, quote)
  }

  function ScanString(src: string, i: nat): (r: Option<Scan>)
    requires i < |src|
    ensures r.Some? ==> i + 1 == r.value.start <= r.value.start + r.value.length < r.value.next <= |src|
  {
    var e := StringEnd(src, i + 1, src[i]);
    if e.None? then None else Some(Scan(Kind.String, i + 1, e.value - (i + 1), e.value + 1))
  }

  // ---- operators ---------------------------------------------------------------------------

  /** Brackets and other bytes that are a token by themselves whatever follows. */
  function Bracket(c: char): (r: Option<Kind>)
    ensures r.Some? ==> Spelling(r.value) == [c]
  {
    match c
    case '(' => Some(LeftParen) case ')' => Some(RightParen) case '{' => Some(LeftBrace) case '}' => Some(RightBrace)
    case '[' => Some(LeftBracket) case ']' => Some(RightBracket)
    case _ => None
  }

  function Separator(c: char): (r: Option<Kind>)
    ensures r.Some? ==> Spelling(r.value) == [c]
  {
    match c
    case ',' => Some(Comma) case ':' => Some(Colon) case ';' => Some(Semicolon)
    case _ => None
  }

  function LoneOperator(c: char): (r: Option<Kind>)
    ensures r.Some? ==> Spelling(r.value) == [c]
  {
    match c
    case '+' => Some(Plus) case '-' => Some(Minus) case '*' => Some(Star) case '%' => Some(Percent)
    case '#' => Some(Length) case '&' => Some(BitAnd) case '|' => Some(BitOr)
    case _ => if Bracket(c).Some? then Bracket(c) else Separator(c)
  }

  /** The longest operator at i. */
  function OperatorAt(src: string, i: nat): Option<Kind>
    requires i < |src|
  {
    var c := src[i];
    if c == '/' then Some(if At(src, i + 1, '/') then FloorDiv else Slash)
    else if c == '.' then Some(if !At(src, i + 1, '.') then Dot else if At(src, i + 2, '.') then Ellipsis else Concat)
    else if c == '~' then Some(if At(src, i + 1, '=') then NotEqual else Tilde)
    else if c == '=' then Some(if At(src, i + 1, '=') then EqualEqual else Equal)
    else if c == '<' then
      Some(if At(src, i + 1, '=') then LessEqual else if At(src, i + 1, '<') then ShiftLeft else Less)
    else if c == '>' then
      Some(if At(src, i + 1, '=') then GreaterEqual else if At(src, i + 1, '>') then ShiftRight else Greater)
    else LoneOperator(c)
  }

  /** The bytes of s are those at i. */
  predicate SpelledAt(src: string, i: nat, s: string) { i + |s| <= |src| && src[i..i + |s|] == s }

  lemma OneAt(src: string, i: nat, c: char)
    requires At(src, i, c)
    ensures SpelledAt(src, i, [c])
  {
  }

  lemma TwoAt(src: string, i: nat, c: char, d: char)
    requires At(src, i, c) && At(src, i + 1, d)
    ensures SpelledAt(src, i, [c, d])
  {
  }

  /** An operator's own bytes are at i. */
  lemma OperatorSpelled(src: string, i: nat)
    requires i < |src| && OperatorAt(src, i).Some?
    ensures var s := Spelling(OperatorAt(src, i).value); 0 < |s| && SpelledAt(src, i, s)
  {
    hide SpelledAt, LoneOperator;
    OneAt(src, i, src[i]);
    if i + 1 < |src| {
      TwoAt(src, i, src[i], src[i + 1]);
    }
    if OperatorAt(src, i) == Some(Ellipsis) {
      EllipsisAt(src, i);
    }
  }

  lemma EllipsisAt(src: string, i: nat)
    requires At(src, i, '.') && At(src, i + 1, '.') && At(src, i + 2, '.')
    ensures SpelledAt(src, i, "...")
  {
  }

  function ScanOperator(src: string, i: nat): (r: Option<Scan>)
    requires i < |src|
    ensures r.Some? ==> i == r.value.start < r.value.next == r.value.start + r.value.length <= |src|
  {
    if src[i] == '.' && DigitAt(src, i + 1) then ScanNumber(src, i)
    else if LongBracketAt(src, i) then None
    else
      var k := OperatorAt(src, i);
      if k.None? then None
      else
        OperatorSpelled(src, i);
        Some(Scan(k.value, i, |Spelling(k.value)|, i + |Spelling(k.value)|))
  }

  /** The token that begins at i. */
  function ScanToken(src: string, i: nat): (r: Option<Scan>)
    requires i < |src|
    ensures r.Some? ==> i <= r.value.start && r.value.start + r.value.length <= r.value.next <= |src| && i < r.value.next
  {
    if src[i] == '\0' then None
    else if IsAlpha(src[i]) then ScanWord(src, i)
    else if IsDigit(src[i]) then ScanNumber(src, i)
    else if IsQuote(src[i]) then ScanString(src, i)
    else ScanOperator(src, i)
  }

  // ---- sources -----------------------------------------------------------------------------

  /** A token as the lexer records it. */
  datatype Lexeme = Lexeme(kind: Kind, offset: nat, length: nat, line: nat, column: nat)

  function Placed(src: string, i: nat, s: Scan): Lexeme
    requires i <= |src|
  {
    Lexeme(s.kind, s.start, s.length, Place(src[..i]).line, Place(src[..i]).column)
  }

  function EndLexeme(src: string): Lexeme { Placed(src, |src|, Scan(EOF, |src|, 0, |src|)) }

  /** All tokens from i on, the last of which is the end of the source. */
  function Lex(src: string, i: nat): (r: Option<seq<Lexeme>>)
    requires i <= |src|
    ensures r.Some? ==> r.value != []
    decreases |src| - i
  {
    var j := Ignored(src, i);
    if j.None? then None
    else if j.value == |src| then Some([EndLexeme(src)])
    else
      var s := ScanToken(src, j.value);
      if s.None? then None
      else
        var rest := Lex(src, s.value.next);
        if rest.None? then None else Some([Placed(src, j.value, s.value)] + rest.value)
  }
}
