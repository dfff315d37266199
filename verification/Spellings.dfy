/** What the lexer accepts: the tokens it reports tile the source, each is spelled as its kind
    demands, and a list of tokens written with spaces between them is read back. */
module Spellings {
  import opened Tokens
  import opened Syntax
  import opened Lexis

  // ---- spellings ---------------------------------------------------------------------------

  predicate All(s: string, p: char -> bool) { forall k :: 0 <= k < |s| ==> p(s[k]) }

  predicate WordText(t: string) { t != [] && IsAlpha(t[0]) && All(t, IsAlnum) && t !in UNSUPPORTED }

  predicate IsKeywordText(t: string) { exists k :: 0 <= k < |KEYWORDS| && Spelling(KEYWORDS[k]) == t }

  predicate HexText(t: string) { |t| > 2 && t[0] == '0' && (t[1] == 'x' || t[1] == 'X') && All(t[2..], IsHex) }

  /** Digits around a point; there is a digit before it or after it. */
  predicate PointedText(t: string, p: nat) {
    p < |t| && |t| > 1 && t[p] == '.' && All(t[..p], IsDigit) && All(t[p + 1..], IsDigit)
  }

  ghost predicate MantissaText(t: string) { (t != [] && All(t, IsDigit)) || exists p :: PointedText(t, p) }

  predicate ExponentText(t: string) {
    t == [] || ((t[0] == 'e' || t[0] == 'E')
                && ((|t| > 1 && All(t[1..], IsDigit)) || (|t| > 2 && (t[1] == '+' || t[1] == '-') && All(t[2..], IsDigit))))
  }

  ghost predicate DecimalText(t: string, m: nat) { m <= |t| && MantissaText(t[..m]) && ExponentText(t[m..]) }

  /** Hexadecimal integers, and decimal numerals with an optional point and an optional exponent. */
  ghost predicate NumberText(t: string) { HexText(t) || exists m :: DecimalText(t, m) }

  /** The bytes between two quotes: escapes are complete and there is no bare quote or end of line. */
  predicate QuotedText(t: string, quote: char) { StringEnd(t + [quote], 0, quote) == Some(|t|) }

  /** A token is spelled as its kind demands; `quote` is what a string is quoted with. */
  ghost predicate Spelt(t: Token, quote: char) {
    if t.kind == Identifier then WordText(t.text) && !IsKeywordText(t.text)
    else if t.kind == Number then NumberText(t.text)
    else if t.kind == Kind.String then QuotedText(t.text, quote)
    else t.kind != EOF && t.text == Spelling(t.kind)
  }

  // ---- tiling ------------------------------------------------------------------------------

  function TextOf(src: string, l: Lexeme): string
    requires l.offset + l.length <= |src|
  {
    src[l.offset..l.offset + l.length]
  }

  /** The first byte of a token, and the byte after it: a string's quotes are outside its text. */
  function Begin(l: Lexeme): int { if l.kind == Kind.String then l.offset - 1 else l.offset }

  function End(l: Lexeme): nat { if l.kind == Kind.String then l.offset + l.length + 1 else l.offset + l.length }

  predicate Quoted(src: string, l: Lexeme) {
    && 0 < l.offset && l.offset + l.length < |src|
    && IsQuote(src[l.offset - 1]) && src[l.offset + l.length] == src[l.offset - 1]
  }

  ghost predicate WellSpelt(src: string, l: Lexeme) {
    && End(l) <= |src|
    && (if l.kind == Kind.String then Quoted(src, l) && Spelt(Token(l.kind, TextOf(src, l)), src[l.offset - 1])
        else Spelt(Token(l.kind, TextOf(src, l)), '"'))
  }

  /** Only whitespace and line comments, a comment running to the end of its line. */
  predicate Blank(src: string, i: nat, j: nat)
    requires j <= |src|
    decreases j - i
  {
    if i >= j then i == j
    else if IsSpace(src[i]) then Blank(src, i + 1, j)
    else CommentAt(src, i) && !LongBracketAt(src, i + 2) && Run(src, i + 2, |src|, IsLineByte) <= j
         && Blank(src, Run(src, i + 2, |src|, IsLineByte), j)
  }

  /** From i on the source is these tokens with blanks between them, and each token's line and
      column are those of the source before it; the end of the source comes last. */
  ghost predicate Tiled(src: string, i: nat, ls: seq<Lexeme>)
    requires i <= |src|
    decreases ls
  {
    && ls != [] && var l := ls[0];
    && i <= Begin(l) <= End(l) <= |src|
    && Blank(src, i, Begin(l))
    && Position(l.line, l.column) == Place(src[..Begin(l)])
    && (if |ls| == 1 then l.kind == EOF && l.offset == |src| && l.length == 0
        else i < End(l) && WellSpelt(src, l) && Tiled(src, End(l), ls[1..]))
  }

  lemma {:induction false} BlankSpaces(src: string, i: nat, j: nat, k: nat)
    requires i <= j <= k <= |src| && (forall n :: i <= n < j ==> IsSpace(src[n])) && Blank(src, j, k)
    ensures Blank(src, i, k)
    decreases j - i
  {
    if i < j {
      BlankSpaces(src, i + 1, j, k);
    }
  }

  lemma {:induction false} IgnoredIsBlank(src: string, i: nat)
    requires i <= |src| && Ignored(src, i).Some?
    ensures Blank(src, i, Ignored(src, i).value)
    decreases |src| - i
  {
    hide LongBracketAt;
    var j := Run(src, i, |src|, IsSpace);
    if CommentAt(src, j) {
      IgnoredIsBlank(src, Run(src, j + 2, |src|, IsLineByte));
    }
    BlankSpaces(src, i, j, Ignored(src, i).value);
  }

  lemma {:induction false} KeywordIs(t: string, k: nat)
    requires k <= |KEYWORDS|
    ensures var r := KeywordFrom(t, k);
      if r == Identifier then forall n :: k <= n < |KEYWORDS| ==> Spelling(KEYWORDS[n]) != t
      else Spelling(r) == t && r in KEYWORDS
    decreases |KEYWORDS| - k
  {
    hide Spelling;
    KeywordsAreWords();
    if k < |KEYWORDS| && Spelling(KEYWORDS[k]) != t {
      KeywordIs(t, k + 1);
    }
  }

  lemma KeywordsAreWords()
    ensures forall n :: 0 <= n < |KEYWORDS| ==> IsKeyword(KEYWORDS[n])
  {
  }

  predicate IsKeyword(k: Kind) {
    match k
    case And => true case Break => true case Do => true case Else => true case Elseif => true case End => true
    case False => true case For => true case Function => true case If => true case In => true case Local => true
    case Nil => true case Not => true case Or => true case Return => true case Then => true case True => true
    case While => true
    case _ => false
  }

  lemma WordSpelt(src: string, i: nat)
    requires AlphaAt(src, i) && ScanWord(src, i).Some?
    ensures var s := ScanWord(src, i).value; s.kind != Kind.String && Spelt(Token(s.kind, src[s.start..s.next]), '"')
  {
    hide Spelling;
    var e := Run(src, i, |src|, IsAlnum);
    var t := src[i..e];
    assert forall k :: 0 <= k < |t| ==> IsAlnum(t[k]) by {
      assert forall k :: 0 <= k < |t| ==> t[k] == src[i + k];
    }
    KeywordIs(t, 0);
    KeywordsAreWords();
  }

  lemma SliceAll(src: string, i: nat, e: nat, p: char -> bool)
    requires i <= e <= |src| && forall k :: i <= k < e ==> p(src[k])
    ensures All(src[i..e], p)
  {
    forall k | 0 <= k < e - i ensures p(src[i..e][k]) {
      assert src[i..e][k] == src[i + k];
    }
  }

  lemma SliceSplit(src: string, i: nat, m: nat, e: nat)
    requires i <= m <= e <= |src|
    ensures src[i..e][..m - i] == src[i..m] && src[i..e][m - i..] == src[m..e]
  {
  }

  lemma MantissaSpelt(src: string, i: nat)
    requires DigitAt(src, i) || (At(src, i, '.') && DigitAt(src, i + 1))
    ensures MantissaText(src[i..MantissaEnd(src, i)])
  {
    var e := MantissaEnd(src, i);
    var t := src[i..e];
    if At(src, i, '.') {
      SliceAll(src, i + 1, e, IsDigit);
      SliceSplit(src, i, i + 1, e);
      assert All(t[..0], IsDigit);
      assert PointedText(t, 0);
    } else {
      var j := Run(src, i, |src|, IsDigit);
      SliceAll(src, i, j, IsDigit);
      if e > j {
        SliceAll(src, j + 1, e, IsDigit);
        SliceSplit(src, i, j, e);
        SliceSplit(src, i, j + 1, e);
        assert PointedText(t, j - i);
      }
    }
  }

  lemma ExponentSpelt(src: string, i: nat)
    requires i <= |src| && ExponentEnd(src, i).Some?
    ensures ExponentText(src[i..ExponentEnd(src, i).value])
  {
    var e := ExponentEnd(src, i).value;
    if e > i {
      var j := if At(src, i + 1, '+') || At(src, i + 1, '-') then i + 2 else i + 1;
      SliceAll(src, j, e, IsDigit);
      SliceSplit(src, i, j, e);
    }
  }

  lemma NumberSpelt(src: string, i: nat)
    requires (DigitAt(src, i) || (At(src, i, '.') && DigitAt(src, i + 1))) && NumberEnd(src, i).Some?
    ensures NumberText(src[i..NumberEnd(src, i).value])
  {
    hide MantissaEnd, ExponentEnd, MantissaText, ExponentText;
    var e := NumberEnd(src, i).value;
    if HexPrefixAt(src, i) {
      SliceAll(src, i + 2, e, IsHex);
      SliceSplit(src, i, i + 2, e);
    } else {
      MantissaSpelt(src, i);
      var m := MantissaEnd(src, i);
      ExponentSpelt(src, m);
      SliceSplit(src, i, m, e);
      assert DecimalText(src[i..e], m - i);
    }
  }

  // ---- scanning does not look around -------------------------------------------------------

  /** t lies in src at i. */
  predicate Holds(src: string, i: nat, t: string) { i + |t| <= |src| && forall k :: 0 <= k < |t| ==> src[i + k] == t[k] }

  lemma {:induction false} RunIs(src: string, i: nat, j: nat, end: nat, p: char -> bool)
    requires i <= j <= end <= |src| && (forall k :: i <= k < j ==> p(src[k])) && (j < end ==> !p(src[j]))
    ensures Run(src, i, end, p) == j
    decreases j - i
  {
    if i < j {
      RunIs(src, i + 1, j, end, p);
    }
  }

  lemma {:induction false} DecimalSame(src: string, i: nat, t: string, n: nat, e: nat)
    requires Holds(src, i, t) && n <= e <= |t|
    ensures DecimalValue(src, i + n, i + e) == DecimalValue(t, n, e)
    decreases e - n
  {
    if n < e {
      DecimalSame(src, i, t, n, e - 1);
    }
  }

  /** An escape that ends before the end of t ends at the same place wherever t lies. */
  lemma EscapeLocal(src: string, i: nat, t: string, n: nat)
    requires Holds(src, i, t) && n < |t| && !IsSpace(t[|t| - 1]) && !IsDigit(t[|t| - 1])
    ensures EscapeEnd(t, n).Some? && EscapeEnd(t, n).value < |t|
        ==> EscapeEnd(src, i + n) == Some(i + EscapeEnd(t, n).value)
    ensures EscapeEnd(src, i + n).Some? && EscapeEnd(src, i + n).value < i + |t|
        ==> EscapeEnd(t, n) == Some(EscapeEnd(src, i + n).value - i)
  {
    hide DecimalValue;
    assert src[i + n] == t[n];
    if t[n] == 'z' && n + 1 < |t| {
      var e := Run(t, n + 1, |t|, IsSpace);
      assert e < |t| && src[i + e] == t[e];
      forall k | i + n + 1 <= k < i + e ensures IsSpace(src[k]) {
        assert src[i + (k - i)] == t[k - i];
      }
      RunIs(src, i + n + 1, i + e, |src|, IsSpace);
    } else if IsDigit(t[n]) {
      assert n + 1 < |t| ==> src[i + n + 1] == t[n + 1];
      assert n + 2 < |t| ==> src[i + n + 2] == t[n + 2];
      if n + 1 < |t| {
        assert DecimalEnd(t, n, |t|) + i == DecimalEnd(src, i + n, |src|);
        DecimalSame(src, i, t, n, DecimalEnd(t, n, |t|));
      }
    } else {
      assert n + 1 < |t| ==> src[i + n + 1] == t[n + 1];
      assert n + 2 < |t| ==> src[i + n + 2] == t[n + 2];
    }
  }

  /** A string closes at the end of t wherever t lies, if it does in t alone, and the reverse. */
  lemma {:induction false} StringLocal(src: string, i: nat, t: string, n: nat, quote: char)
    requires Holds(src, i, t) && n < |t| && t[|t| - 1] == quote && IsQuote(quote)
    ensures StringEnd(t, n, quote) == Some(|t| - 1) <==> StringEnd(src, i + n, quote) == Some(i + |t| - 1)
    decreases |t| - n
  {
    hide EscapeEnd;
    assert src[i + n] == t[n];
    if t[n] == '\0' || t[n] == quote || !IsLineByte(t[n]) {
    } else if t[n] != '\\' {
      StringLocal(src, i, t, n + 1, quote);
    } else {
      EscapeLocal(src, i, t, n + 1);
      var e := EscapeEnd(t, n + 1);
      if e.Some? && e.value < |t| {
        StringLocal(src, i, t, e.value, quote);
      }
    }
  }

  lemma StringSpelt(src: string, i: nat)
    requires i < |src| && IsQuote(src[i]) && ScanString(src, i).Some?
    ensures var s := ScanString(src, i).value; QuotedText(src[s.start..s.start + s.length], src[i])
  {
    hide StringEnd;
    var e := StringEnd(src, i + 1, src[i]).value;
    var t := src[i + 1..e] + [src[i]];
    assert t == src[i + 1..e + 1];
    StringLocal(src, i + 1, t, 0, src[i]);
  }

  // ---- what is accepted --------------------------------------------------------------------

  lemma OperatorKind(src: string, i: nat)
    requires i < |src| && OperatorAt(src, i).Some?
    ensures OperatorAt(src, i).value !in {Identifier, Number, Kind.String, EOF}
  {
    hide Spelling;
    if LoneOperator(src[i]).Some? {
      LoneKind(src[i]);
    }
  }

  lemma LoneKind(c: char)
    requires LoneOperator(c).Some?
    ensures LoneOperator(c).value !in {Identifier, Number, Kind.String, EOF}
  {
  }

  lemma OperatorSpelt(src: string, i: nat)
    requires i < |src| && ScanOperator(src, i).Some?
    ensures var s := ScanOperator(src, i).value; s.kind != Kind.String && Spelt(Token(s.kind, src[s.start..s.next]), '"')
  {
    hide OperatorAt, Spelling, NumberText, LongBracketAt, NumberEnd;
    if src[i] == '.' && DigitAt(src, i + 1) {
      NumberSpelt(src, i);
    } else {
      OperatorKind(src, i);
      OperatorSpelled(src, i);
    }
  }

  /** A token that begins at i is spelled as its kind demands. */
  lemma TokenSpelt(src: string, i: nat)
    requires i < |src| && ScanToken(src, i).Some?
    ensures var l := Placed(src, i, ScanToken(src, i).value);
      Begin(l) == i && End(l) == ScanToken(src, i).value.next && i < End(l) && WellSpelt(src, l)
  {
    hide ScanWord, ScanOperator, NumberEnd, StringEnd, NumberText, QuotedText, Place, Spelt;
    if IsAlpha(src[i]) {
      WordSpelt(src, i);
    } else if IsDigit(src[i]) {
      NumberSpelt(src, i);
      NumberIsSpelt(src[i..NumberEnd(src, i).value]);
    } else if IsQuote(src[i]) {
      StringSpelt(src, i);
      var s := ScanString(src, i).value;
      StringIsSpelt(src[s.start..s.start + s.length], src[i]);
    } else {
      OperatorSpelt(src, i);
    }
  }

  lemma NumberIsSpelt(t: string)
    requires NumberText(t)
    ensures Spelt(Token(Number, t), '"')
  {
    hide NumberText;
  }

  lemma StringIsSpelt(t: string, quote: char)
    requires QuotedText(t, quote)
    ensures Spelt(Token(Kind.String, t), quote)
  {
    hide QuotedText;
  }

  /** Whatever the lexer accepts is tiled by the tokens it reports. */
  lemma {:induction false} LexTiles(src: string, i: nat)
    requires i <= |src| && Lex(src, i).Some?
    ensures Tiled(src, i, Lex(src, i).value)
    decreases |src| - i
  {
    hide Ignored, ScanToken, WellSpelt, Blank, Place;
    IgnoredIsBlank(src, i);
    var j := Ignored(src, i).value;
    if j < |src| {
      TokenSpelt(src, j);
      LexTiles(src, ScanToken(src, j).value.next);
    }
  }

  /** Tokens follow one another without overlap, and the last one is the end of the source. */
  lemma {:induction false} TiledInOrder(src: string, i: nat, ls: seq<Lexeme>, a: nat, b: nat)
    requires i <= |src| && Tiled(src, i, ls) && a < b < |ls|
    ensures i <= Begin(ls[a]) <= End(ls[a]) <= Begin(ls[b]) <= End(ls[b]) <= |src|
    decreases ls
  {
    hide WellSpelt, Blank;
    var rest := ls[1..];
    if a > 0 {
      TiledInOrder(src, End(ls[0]), rest, a - 1, b - 1);
    } else {
      TiledWithin(src, End(ls[0]), rest, b - 1);
    }
  }

  lemma {:induction false} TiledWithin(src: string, i: nat, ls: seq<Lexeme>, a: nat)
    requires i <= |src| && Tiled(src, i, ls) && a < |ls|
    ensures i <= Begin(ls[a]) <= End(ls[a]) <= |src|
    ensures Position(ls[a].line, ls[a].column) == Place(src[..Begin(ls[a])])
    ensures if a == |ls| - 1 then ls[a].kind == EOF && ls[a].offset == |src| else WellSpelt(src, ls[a])
    decreases ls
  {
    hide WellSpelt, Blank;
    if a > 0 {
      TiledWithin(src, End(ls[0]), ls[1..], a - 1);
    }
  }
}
