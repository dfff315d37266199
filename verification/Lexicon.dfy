/** The words, operators, escapes and line ends of the language, written out one by one. */
module Lexicon {
  import opened Tokens
  import opened Syntax
  import opened Lexis
  import opened Spellings
  import Rendering
  import Strings

  // ---- words and operators -----------------------------------------------------------------

  /** Wherever the text stands before a blank, it is one token, of this kind. */
  ghost predicate Reads(t: string, k: Kind) {
    forall src: string, i: nat :: Holds(src, i, t + [' ']) ==> ScanToken(src, i) == Some(Scan(k, i, |t|, i + |t|))
  }

  lemma Spelt(k: Kind)
    requires IsKeyword(k) || Rendering.IsOperator(k)
    ensures Reads(Spelling(k), k)
  {
    hide Spelling, ScanToken;
    forall src: string, i: nat | Holds(src, i, Spelling(k) + [' '])
      ensures ScanToken(src, i) == Some(Scan(k, i, |Spelling(k)|, i + |Spelling(k)|))
    {
      Rendering.FixedReads(src, i, Fixed(k));
    }
  }

  lemma Keywords1()
    ensures Reads("and", And) && Reads("break", Break) && Reads("do", Do) && Reads("else", Else)
    ensures Reads("elseif", Elseif) && Reads("end", End)
  {
    hide Reads;
    Spelt(And);
    Spelt(Break);
    Spelt(Do);
    Spelt(Else);
    Spelt(Elseif);
    Spelt(End);
  }

  lemma Keywords2()
    ensures Reads("false", False) && Reads("for", For) && Reads("function", Function) && Reads("if", If)
    ensures Reads("in", In) && Reads("local", Local)
  {
    hide Reads;
    Spelt(False);
    Spelt(For);
    Spelt(Function);
    Spelt(If);
    Spelt(In);
    Spelt(Local);
  }

  lemma Keywords3()
    ensures Reads("nil", Nil) && Reads("not", Not) && Reads("or", Or) && Reads("return", Return)
    ensures Reads("then", Then) && Reads("true", True) && Reads("while", While)
  {
    hide Reads;
    Spelt(Nil);
    Spelt(Not);
    Spelt(Or);
    Spelt(Return);
    Spelt(Then);
    Spelt(True);
    Spelt(While);
  }

  /** The keywords. */
  lemma KeywordsAre()
    ensures Reads("and", And) && Reads("break", Break) && Reads("do", Do) && Reads("else", Else)
    ensures Reads("elseif", Elseif) && Reads("end", End)
    ensures Reads("false", False) && Reads("for", For) && Reads("function", Function) && Reads("if", If)
    ensures Reads("in", In) && Reads("local", Local)
    ensures Reads("nil", Nil) && Reads("not", Not) && Reads("or", Or) && Reads("return", Return)
    ensures Reads("then", Then) && Reads("true", True) && Reads("while", While)
  {
    hide Reads;
    Keywords1();
    Keywords2();
    Keywords3();
  }

  lemma Operators1()
    ensures Reads("+", Plus) && Reads("-", Minus) && Reads("*", Star) && Reads("/", Slash)
  {
    hide Reads;
    Spelt(Plus);
    Spelt(Minus);
    Spelt(Star);
    Spelt(Slash);
  }

  lemma Operators2()
    ensures Reads("//", FloorDiv) && Reads("%", Percent) && Reads("..", Concat) && Reads("#", Length)
  {
    hide Reads;
    Spelt(FloorDiv);
    Spelt(Percent);
    Spelt(Concat);
    Spelt(Length);
  }

  lemma Operators3()
    ensures Reads("~", Tilde) && Reads("=", Equal) && Reads("==", EqualEqual) && Reads("~=", NotEqual)
  {
    hide Reads;
    Spelt(Tilde);
    Spelt(Equal);
    Spelt(EqualEqual);
    Spelt(NotEqual);
  }

  lemma Operators4()
    ensures Reads("<", Less) && Reads("<=", LessEqual) && Reads(">", Greater) && Reads(">=", GreaterEqual)
  {
    hide Reads;
    Spelt(Less);
    Spelt(LessEqual);
    Spelt(Greater);
    Spelt(GreaterEqual);
  }

  lemma Operators5()
    ensures Reads("&", BitAnd) && Reads("|", BitOr) && Reads("<<", ShiftLeft) && Reads(">>", ShiftRight)
  {
    hide Reads;
    Spelt(BitAnd);
    Spelt(BitOr);
    Spelt(ShiftLeft);
    Spelt(ShiftRight);
  }

  lemma Operators6()
    ensures Reads("(", LeftParen) && Reads(")", RightParen) && Reads("{", LeftBrace) && Reads("}", RightBrace)
  {
    hide Reads;
    Spelt(LeftParen);
    Spelt(RightParen);
    Spelt(LeftBrace);
    Spelt(RightBrace);
  }

  lemma Operators7()
    ensures Reads("[", LeftBracket) && Reads("]", RightBracket) && Reads(",", Comma) && Reads(".", Dot)
  {
    hide Reads;
    Spelt(LeftBracket);
    Spelt(RightBracket);
    Spelt(Comma);
    Spelt(Dot);
  }

  lemma Operators8()
    ensures Reads(":", Colon) && Reads(";", Semicolon) && Reads("...", Ellipsis)
  {
    hide Reads;
    Spelt(Colon);
    Spelt(Semicolon);
    Spelt(Ellipsis);
  }

  /** The operators, brackets and separators. */
  lemma OperatorsAre()
    ensures Reads("+", Plus) && Reads("-", Minus) && Reads("*", Star) && Reads("/", Slash)
    ensures Reads("//", FloorDiv) && Reads("%", Percent) && Reads("..", Concat) && Reads("#", Length)
    ensures Reads("~", Tilde) && Reads("=", Equal) && Reads("==", EqualEqual) && Reads("~=", NotEqual)
    ensures Reads("<", Less) && Reads("<=", LessEqual) && Reads(">", Greater) && Reads(">=", GreaterEqual)
    ensures Reads("&", BitAnd) && Reads("|", BitOr) && Reads("<<", ShiftLeft) && Reads(">>", ShiftRight)
    ensures Reads("(", LeftParen) && Reads(")", RightParen) && Reads("{", LeftBrace) && Reads("}", RightBrace)
    ensures Reads("[", LeftBracket) && Reads("]", RightBracket) && Reads(",", Comma) && Reads(".", Dot)
    ensures Reads(":", Colon) && Reads(";", Semicolon) && Reads("...", Ellipsis)
  {
    hide Reads;
    Operators1();
    Operators2();
    Operators3();
    Operators4();
    Operators5();
    Operators6();
    Operators7();
    Operators8();
  }

  /** The words that are no names. */
  predicate Reserved(t: string) {
    || t == "and" || t == "break" || t == "do" || t == "else" || t == "elseif" || t == "end" || t == "false" || t == "for"
    || t == "function" || t == "if" || t == "in" || t == "local" || t == "nil" || t == "not" || t == "or" || t == "return"
    || t == "then" || t == "true" || t == "while" || t == "goto" || t == "repeat" || t == "until"
  }

  lemma KeywordReserved(k: Kind)
    requires IsKeyword(k)
    ensures Reserved(Spelling(k))
  {
  }

  predicate WordByte(c: char) { 'A' <= c <= 'Z' || 'a' <= c <= 'z' || c == '_' || '0' <= c <= '9' }

  /** Every other word of letters, digits and underscores that begins with no digit is a name. */
  lemma NameIs(t: string)
    requires t != [] && !('0' <= t[0] <= '9') && (forall i :: 0 <= i < |t| ==> WordByte(t[i])) && !Reserved(t)
    ensures Reads(t, Identifier)
  {
    hide Spelling, ScanToken, KeywordFrom;
    NotUnsupported(t);
    Spellings.KeywordIs(t, 0);
    if KeywordFrom(t, 0) != Identifier { KeywordReserved(KeywordFrom(t, 0)); }
    forall src: string, i: nat | Holds(src, i, t + [' '])
      ensures ScanToken(src, i) == Some(Scan(Identifier, i, |t|, i + |t|))
    {
      Rendering.WordReads(src, i, Token(Identifier, t));
    }
  }

  lemma NotUnsupported(t: string)
    requires !Reserved(t)
    ensures t !in UNSUPPORTED
  {
  }

  // ---- what is skipped ---------------------------------------------------------------------

  predicate Blank(c: char) { c == ' ' || c == '\t' || c == '\n' || c == '\U{0B}' || c == '\U{0C}' || c == '\r' }

  /** White space is skipped. */
  lemma BlankIs(src: string, i: nat)
    requires i < |src| && Blank(src[i])
    ensures Ignored(src, i) == Ignored(src, i + 1)
  {
  }

  /** A comment is skipped up to the end of its line, unless it is a long one, which is refused. */
  lemma CommentIs(src: string, i: nat, e: nat)
    requires i + 2 <= e <= |src| && src[i] == src[i + 1] == '-'
    requires (forall k :: i + 2 <= k < e ==> src[k] != '\n' && src[k] != '\r') && (e < |src| ==> src[e] == '\n' || src[e] == '\r')
    ensures i + 2 == e || src[i + 2] != '[' ==> Ignored(src, i) == Ignored(src, e)
    ensures i + 4 <= e && src[i + 2] == src[i + 3] == '[' ==> Ignored(src, i) == None
  {
    assert Run(src, i, |src|, IsSpace) == i;
    RunIs(src, i + 2, e, |src|, IsLineByte);
  }

  /** Nothing else is. */
  lemma TokenIs(src: string, i: nat)
    requires i <= |src| && (i < |src| ==> !Blank(src[i])) && !(i + 1 < |src| && src[i] == src[i + 1] == '-')
    ensures Ignored(src, i) == Some(i)
  {
  }

  // ---- lines -------------------------------------------------------------------------------

  predicate OneLine(t: string) { forall i :: 0 <= i < |t| ==> t[i] != '\n' && t[i] != '\r' }

  /** The column counts bytes from the start of the line. */
  lemma {:induction false} ColumnIs(s: string, t: string)
    requires OneLine(t)
    ensures Place(s + t) == Position(Place(s).line, Place(s).column + |t|)
    decreases t
  {
    if t == [] {
      assert s + t == s;
    } else {
      var front := t[..|t| - 1];
      assert (s + t)[..|s + t| - 1] == s + front;
      ColumnIs(s, front);
    }
  }

  /** A line feed, a carriage return, or both together are one end of line. */
  lemma LineIs(s: string, t: string)
    requires OneLine(t)
    ensures s == [] || s[|s| - 1] != '\r' ==> Place(s + "\n" + t) == Position(Place(s).line + 1, 1 + |t|)
    ensures Place(s + "\r" + t) == Position(Place(s).line + 1, 1 + |t|)
    ensures Place(s + "\r\n" + t) == Position(Place(s).line + 1, 1 + |t|)
    ensures Place("") == Position(1, 1)
  {
    hide Place;
    ColumnIs(s + "\n", t);
    ColumnIs(s + "\r", t);
    ColumnIs(s + "\r\n", t);
    EndsLine(s);
  }

  lemma EndsLine(s: string)
    ensures s == [] || s[|s| - 1] != '\r' ==> Place(s + "\n") == Position(Place(s).line + 1, 1)
    ensures Place(s + "\r") == Place(s + "\r\n") == Position(Place(s).line + 1, 1)
    ensures Place("") == Position(1, 1)
  {
    assert (s + "\n")[..|s|] == s && (s + "\r")[..|s|] == s && (s + "\r\n")[..|s| + 1] == s + "\r";
  }

  // ---- escapes -----------------------------------------------------------------------------

  /** A text with what follows it, if that is known. */
  function Followed(text: string, rest: Option<string>): Option<string> {
    if rest.None? then None else Some(text + rest.value)
  }

  /** The byte that a backslash and one byte stand for. */
  function EscapeOf(c: char): Option<int> {
    if c == 'a' then Some(7)
    else if c == 'b' then Some(8)
    else if c == 't' then Some(9)
    else if c == 'n' then Some(10)
    else if c == 'v' then Some(11)
    else if c == 'f' then Some(12)
    else if c == 'r' then Some(13)
    else if c == '\\' || c == '"' || c == '\'' then Some(c as int)
    else None
  }

  /** The text from i on, by itself. */
  lemma Rest(t: string, i: nat)
    requires i <= |t|
    ensures Strings.Decode(t, i, |t|) == Strings.Decoded(t[i..])
  {
    hide Strings.Decode;
    Strings.DecodeIsLocal(t, i, |t|, 0);
    assert t[i..|t|] == t[i..];
  }

  lemma Step(t: string, u: Option<Strings.Unescaped>)
    requires |t| >= 2 && t[0] == '\\' && Strings.Unescape(t, 1, |t|) == u
    ensures Strings.Decoded(t) == if u.None? then None else Followed(u.value.text, Strings.Decoded(t[u.value.next..]))
  {
    hide Strings.Unescape;
    if u.Some? { Rest(t, u.value.next); }
  }

  /** A byte that is no backslash stands for itself, and a lone backslash for nothing. */
  lemma ByteIs(c: char, t: string)
    ensures c != '\\' ==> Strings.Decoded([c] + t) == Followed([c], Strings.Decoded(t))
    ensures Strings.Decoded("") == Some("") && Strings.Decoded("\\") == None
  {
    Rest([c] + t, 1);
    assert ([c] + t)[1..] == t;
  }

  /** The escapes of one letter. */
  lemma EscapeIs(c: char, t: string)
    ensures EscapeOf(c).Some? ==> Strings.Decoded(['\\', c] + t) == Followed([EscapeOf(c).value as char], Strings.Decoded(t))
    ensures EscapeOf(c).None? && c !in "xz\r\n0123456789" ==> Strings.Decoded(['\\', c] + t) == None
  {
    hide Strings.Decode;
    var s := ['\\', c] + t;
    assert s[2..] == t;
    Step(s, Strings.Unescape(s, 1, |s|));
  }

  /** `\x` and two hexadecimal digits. */
  lemma HexIs(a: nat, b: nat, x: char, y: char, t: string)
    requires a < 16 && (x == "0123456789abcdef"[a] || x == "0123456789ABCDEF"[a])
    requires b < 16 && (y == "0123456789abcdef"[b] || y == "0123456789ABCDEF"[b])
    ensures Strings.Decoded(['\\', 'x', x, y] + t) == Followed([(16 * a + b) as char], Strings.Decoded(t))
  {
    hide Strings.Decode, Strings.HexValue;
    var s := ['\\', 'x', x, y] + t;
    assert s[4..] == t;
    HexDigitIs(a, x);
    HexDigitIs(b, y);
    Step(s, Strings.Unescape(s, 1, |s|));
  }

  lemma HexDigitIs(a: nat, x: char)
    requires a < 16 && (x == "0123456789abcdef"[a] || x == "0123456789ABCDEF"[a])
    ensures IsHex(x) && Strings.HexValue(x) == a
  {
  }

  /** A backslash and three digits, up to 255. */
  lemma DecimalIs(a: nat, b: nat, c: nat, t: string)
    requires a < 10 && b < 10 && c < 10
    ensures var n, s := 100 * a + 10 * b + c, ['\\', "0123456789"[a], "0123456789"[b], "0123456789"[c]] + t;
      Strings.Decoded(s) == if n <= 255 then Followed([n as char], Strings.Decoded(t)) else None
  {
    hide Strings.Decode;
    var s := ['\\', "0123456789"[a], "0123456789"[b], "0123456789"[c]] + t;
    assert s[4..] == t;
    DigitIs(a);
    DigitIs(b);
    DigitIs(c);
    assert DecimalValue(s, 1, 1) == 0 && DecimalValue(s, 1, 2) == a && DecimalValue(s, 1, 3) == 10 * a + b;
    Step(s, Strings.Unescape(s, 1, |s|));
  }

  lemma DigitIs(a: nat)
    requires a < 10
    ensures IsDigit("0123456789"[a]) && DigitValue("0123456789"[a]) == a
  {
  }

  /** A backslash at the end of a line stands for a line feed, and `\z` with the white space behind it for
      nothing. */
  lemma LineEscapeIs(t: string)
    ensures Strings.Decoded("\\\n" + t) == Followed("\n", Strings.Decoded(t))
    ensures Strings.Decoded("\\\r\n" + t) == Followed("\n", Strings.Decoded(t))
    ensures t == [] || t[0] != '\n' ==> Strings.Decoded("\\\r" + t) == Followed("\n", Strings.Decoded(t))
    ensures t == [] || !Blank(t[0]) ==> Strings.Decoded("\\z" + t) == Strings.Decoded(t)
    ensures t != [] && Blank(t[0]) ==> Strings.Decoded("\\z" + t) == Strings.Decoded("\\z" + t[1..])
  {
    hide Strings.Decode;
    LineStep("\\\n", t);
    LineStep("\\\r\n", t);
    if t == [] || t[0] != '\n' { LineStep("\\\r", t); }
    Skipped(t);
    if t != [] && Blank(t[0]) {
      Skipped(t[1..]);
      SpacesBehind(t);
    }
  }

  lemma LineStep(e: string, t: string)
    requires e == "\\\n" || e == "\\\r\n" || (e == "\\\r" && (t == [] || t[0] != '\n'))
    ensures Strings.Decoded(e + t) == Followed("\n", Strings.Decoded(t))
  {
    hide Strings.Decode;
    var s := e + t;
    assert s[|e|..] == t;
    assert Strings.Unescape(s, 1, |s|) == Some(Strings.Unescaped("\n", |e|));
    Step(s, Strings.Unescape(s, 1, |s|));
  }

  /** Where the white space at the start of a text ends. */
  function BlanksEnd(t: string): (n: nat)
    ensures n <= |t|
  {
    if t != [] && Blank(t[0]) then 1 + BlanksEnd(t[1..]) else 0
  }

  lemma SpacesBehind(t: string)
    requires t != [] && Blank(t[0])
    ensures t[BlanksEnd(t)..] == t[1..][BlanksEnd(t[1..])..]
  {
  }

  lemma Skipped(t: string)
    ensures Strings.Decoded("\\z" + t) == Strings.Decoded(t[BlanksEnd(t)..])
    ensures t == [] || !Blank(t[0]) ==> t[BlanksEnd(t)..] == t
  {
    hide Strings.Decode, Run;
    var s, n := "\\z" + t, BlanksEnd(t);
    assert s[2..] == t;
    BlanksRun(s, 2);
    assert s[2 + n..] == t[n..];
    Step(s, Strings.Unescape(s, 1, |s|));
    assert forall o: Option<string> :: Followed("", o) == o by {
      forall o: Option<string> ensures Followed("", o) == o { assert o.Some? ==> "" + o.value == o.value; }
    }
  }

  lemma {:induction false} BlanksRun(s: string, i: nat)
    requires i <= |s|
    ensures Run(s, i, |s|, IsSpace) == i + BlanksEnd(s[i..])
    decreases |s| - i
  {
    if i < |s| {
      assert s[i..][0] == s[i] && s[i..][1..] == s[i + 1..];
      BlanksRun(s, i + 1);
    }
  }
}
