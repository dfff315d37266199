/** The lexer: a cursor over the source that keeps its line and column as it goes. */
module Lexing {
  import opened Tokens
  import opened Syntax
  import opened Lexis

  lemma PlaceNext(src: string, i: nat)
    requires i < |src| && !SplitsLineEnd(src, i)
    ensures var p := Place(src[..i]);
      Place(src[..PastLineEnd(src, i)])
      == if src[i] == '\r' || src[i] == '\n' then Position(p.line + 1, 1) else Position(p.line, p.column + 1)
    ensures !SplitsLineEnd(src, PastLineEnd(src, i))
  {
    assert src[..i + 1][..i] == src[..i];
    if src[i] == '\r' && At(src, i + 1, '\n') {
      assert src[..i + 2][..i + 1] == src[..i + 1];
    }
  }

  class Lexer {
    const source: string
    var offset: nat
    var line: nat
    var column: nat
    var tokens: seq<Lexeme>

    constructor (source: string)
      ensures this.source == source && Valid() && offset == 0 && tokens == []
    {
      this.source := source;
      offset, line, column, tokens := 0, 1, 1, [];
    }

    /** The recorded line and column are those of the bytes passed so far, and no end of line is
        half passed. */
    ghost predicate Valid()
      reads `offset, `line, `column
    {
      offset <= |source| && !SplitsLineEnd(source, offset) && Position(line, column) == Place(source[..offset])
    }

    predicate Sees(ahead: nat, c: char)
      reads `offset
    {
      At(source, offset + ahead, c)
    }

    /** One logical character: CRLF counts as one. */
    method Advance()
      requires Valid() && offset < |source|
      modifies `offset, `line, `column
      ensures Valid() && offset == PastLineEnd(source, old(offset))
    {
      PlaceNext(source, offset);
      var c := source[offset];
      offset := offset + 1;
      if c == '\r' {
        if Sees(0, '\n') {
          offset := offset + 1;
        }
        line, column := line + 1, 1;
      } else if c == '\n' {
        line, column := line + 1, 1;
      } else {
        column := column + 1;
      }
    }

    /** Pass every byte that satisfies p, which treats both bytes of an end of line alike. */
    method AdvanceWhile(p: char -> bool)
      requires Valid() && p('\r') == p('\n')
      modifies `offset, `line, `column
      ensures Valid() && offset == Run(source, old(offset), |source|, p)
    {
      while offset < |source| && p(source[offset])
        invariant Valid() && Run(source, offset, |source|, p) == Run(source, old(offset), |source|, p)
        decreases |source| - offset
      {
        Advance();
      }
    }

    /** A comment up to the end of its line. */
    method Comment()
      requires Valid() && CommentAt(source, offset)
      modifies `offset, `line, `column
      ensures Valid() && offset == Run(source, old(offset) + 2, |source|, IsLineByte)
    {
      hide Place;
      Advance();
      Advance();
      AdvanceWhile(IsLineByte);
    }

    method SkipIgnored() returns (ok: bool)
      requires Valid()
      modifies `offset, `line, `column
      ensures Valid()
      ensures var r := Ignored(source, old(offset)); ok == r.Some? && (ok ==> offset == r.value)
    {
      hide Ignored, LongBracketAt, Place, Run, PastLineEnd, SplitsLineEnd;
      ghost var from: nat := offset;
      AdvanceWhile(IsSpace);
      ok := true;
      while ok && Sees(0, '-') && Sees(1, '-')
        invariant Valid() && 0 <= from <= |source|
        invariant ok ==> offset == Run(source, from, |source|, IsSpace)
        invariant if ok then Ignored(source, from) == Ignored(source, old(offset)) else Ignored(source, old(offset)).None?
        decreases ok, |source| - offset
      {
        IgnoredStep(source, from);
        if LongBracketAt(source, offset + 2) {
          ok := false;
        } else {
          Comment();
          from := offset;
          AdvanceWhile(IsSpace);
        }
      }
      if ok {
        IgnoredStep(source, from);
      }
    }

    method Emit(k: Kind, start: nat, length: nat, at: Position) returns (ok: bool)
      modifies `tokens
      ensures ok == (|old(tokens)| < TOKEN_LIMIT)
      ensures tokens == old(tokens) + if ok then [Lexeme(k, start, length, at.line, at.column)] else []
    {
      ok := |tokens| < TOKEN_LIMIT;
      if ok {
        tokens := tokens + [Lexeme(k, start, length, at.line, at.column)];
      }
    }

    /** What a scanner reports: the token that begins at i is recorded, or there is none, or no room. */
    ghost predicate Scanned(scan: Option<Scan>, before: seq<Lexeme>, i: nat, ok: bool)
      requires i <= |source|
      reads `tokens, `offset
    {
      && ok == (scan.Some? && |before| < TOKEN_LIMIT)
      && (ok ==> tokens == before + [Placed(source, i, scan.value)] && offset == scan.value.next)
    }

    method Keyword(t: string) returns (k: Kind)
      ensures k == KeywordFrom(t, 0)
    {
      var i := 0;
      while i < |KEYWORDS| && Spelling(KEYWORDS[i]) != t
        invariant i <= |KEYWORDS| && KeywordFrom(t, i) == KeywordFrom(t, 0)
      {
        i := i + 1;
      }
      k := if i < |KEYWORDS| then KEYWORDS[i] else Identifier;
    }

    method Word() returns (ok: bool)
      requires Valid() && AlphaAt(source, offset)
      modifies `offset, `line, `column, `tokens
      ensures Valid() && Scanned(ScanWord(source, old(offset)), old(tokens), old(offset), ok)
    {
      var start, at := offset, Position(line, column);
      AdvanceWhile(IsAlnum);
      var text := source[start..offset];
      if text in UNSUPPORTED { return false; }
      var k := Keyword(text);
      ok := Emit(k, start, offset - start, at);
    }

    /** Digits with at most one point. */
    method Mantissa()
      requires Valid()
      modifies `offset, `line, `column
      ensures Valid() && offset == MantissaEnd(source, old(offset))
    {
      if Sees(0, '.') {
        Advance();
        AdvanceWhile(IsDigit);
      } else {
        AdvanceWhile(IsDigit);
        if Sees(0, '.') && !Sees(1, '.') {
          Advance();
          AdvanceWhile(IsDigit);
        }
      }
    }

    method Exponent() returns (ok: bool)
      requires Valid()
      modifies `offset, `line, `column
      ensures Valid()
      ensures var e := ExponentEnd(source, old(offset)); ok == e.Some? && (ok ==> offset == e.value)
    {
      if !Sees(0, 'e') && !Sees(0, 'E') { return true; }
      Advance();
      if Sees(0, '+') || Sees(0, '-') {
        Advance();
      }
      if !DigitAt(source, offset) { return false; }
      AdvanceWhile(IsDigit);
      ok := true;
    }

    method HexDigits() returns (ok: bool)
      requires Valid() && HexPrefixAt(source, offset)
      modifies `offset, `line, `column
      ensures Valid()
      ensures var e := HexEnd(source, old(offset)); ok == e.Some? && (ok ==> offset == e.value)
    {
      Advance();
      Advance();
      ok := HexAt(source, offset);
      if ok {
        AdvanceWhile(IsHex);
      }
    }

    method Numeral() returns (ok: bool)
      requires Valid() && (DigitAt(source, offset) || (Sees(0, '.') && DigitAt(source, offset + 1)))
      modifies `offset, `line, `column, `tokens
      ensures Valid() && Scanned(ScanNumber(source, old(offset)), old(tokens), old(offset), ok)
    {
      hide MantissaEnd, ExponentEnd, HexEnd, Place;
      var start, at := offset, Position(line, column);
      if Sees(0, '0') && (Sees(1, 'x') || Sees(1, 'X')) {
        ok := HexDigits();
      } else {
        Mantissa();
        ok := Exponent();
      }
      if ok {
        ok := !AlphaAt(source, offset);
      }
      if ok {
        ok := Emit(Number, start, offset - start, at);
      }
    }

    /** Up to three digits. */
    method DecimalEscape() returns (ok: bool)
      requires Valid() && DigitAt(source, offset)
      modifies `offset, `line, `column
      ensures Valid() && offset == DecimalEnd(source, old(offset), |source|)
      ensures ok == (DecimalValue(source, old(offset), offset) <= 255)
    {
      var value, digits := 0, 0;
      while digits < 3 && DigitAt(source, offset)
        invariant Valid() && digits <= 3 && offset == old(offset) + digits
        invariant value == DecimalValue(source, old(offset), offset)
        invariant forall k :: old(offset) <= k < offset ==> IsDigit(source[k])
      {
        value := value * 10 + DigitValue(source[offset]);
        digits := digits + 1;
        Advance();
      }
      ok := value <= 255;
    }

    /** One escape sequence, after its backslash. */
    method Escape() returns (ok: bool)
      requires Valid()
      modifies `offset, `line, `column
      ensures Valid()
      ensures var e := EscapeEnd(source, old(offset)); ok == e.Some? && (ok ==> offset == e.value)
    {
      if offset == |source| { return false; }
      var c := source[offset];
      ok := true;
      if SimpleEscape(c).Some? {
        Advance();
      } else if c == 'x' {
        Advance();
        ok := HexAt(source, offset) && HexAt(source, offset + 1);
        if ok {
          Advance();
          Advance();
        }
      } else if IsDigit(c) {
        ok := DecimalEscape();
      } else if c == 'z' {
        Advance();
        AdvanceWhile(IsSpace);
      } else if !IsLineByte(c) {
        Advance();
      } else {
        ok := false;
      }
    }

    method Quoted() returns (ok: bool)
      requires Valid() && offset < |source| && IsQuote(source[offset])
      modifies `offset, `line, `column, `tokens
      ensures Valid() && Scanned(ScanString(source, old(offset)), old(tokens), old(offset), ok)
    {
      var quote, at := source[offset], Position(line, column);
      Advance();
      var start := offset;
      ok := true;
      while ok && offset < |source| && source[offset] != quote
        invariant Valid() && 0 <= start <= |source| && (ok ==> start <= offset) && tokens == old(tokens)
        invariant if ok then StringEnd(source, offset, quote) == StringEnd(source, start, quote)
                  else StringEnd(source, start, quote).None?
        decreases ok, |source| - offset
      {
        var c := source[offset];
        if c == '\0' || !IsLineByte(c) {
          ok := false;
        } else {
          Advance();
          if c == '\\' {
            ok := Escape();
          }
        }
      }
      if ok {
        ok := offset < |source|;
      }
      if ok {
        var length := offset - start;
        Advance();
        ok := Emit(Kind.String, start, length, at);
      }
    }

    method Operator() returns (ok: bool)
      requires Valid() && offset < |source|
      modifies `offset, `line, `column, `tokens
      ensures Valid() && Scanned(ScanOperator(source, old(offset)), old(tokens), old(offset), ok)
    {
      hide Spelling, OperatorAt, LongBracketAt, Place, NumberEnd, SpelledAt;
      if Sees(0, '.') && DigitAt(source, offset + 1) {
        ok := Numeral();
        return;
      }
      if LongBracketAt(source, offset) { return false; }
      var k := OperatorAt(source, offset);
      if k.None? { return false; }
      OperatorSpelled(source, offset);
      NoLineEnds(k.value);
      ok := Symbol(k.value);
    }

    /** Pass the bytes of an operator and record it. */
    method Symbol(k: Kind) returns (ok: bool)
      requires Valid() && SpelledAt(source, offset, Spelling(k)) && forall i :: 0 <= i < |Spelling(k)| ==> IsLineByte(Spelling(k)[i])
      modifies `offset, `line, `column, `tokens
      ensures Valid()
      ensures var n := |Spelling(k)|;
        Scanned(Some(Scan(k, old(offset), n, old(offset) + n)), old(tokens), old(offset), ok)
    {
      hide Spelling, Place;
      var start, at := offset, Position(line, column);
      var n := |Spelling(k)|;
      while offset < start + n
        invariant Valid() && start <= offset <= start + n && tokens == old(tokens)
      {
        assert source[offset] == source[start..start + n][offset - start] == Spelling(k)[offset - start];
        Advance();
      }
      ok := Emit(k, start, n, at);
    }

    /** The token at the cursor. */
    method Token() returns (ok: bool)
      requires Valid() && offset < |source|
      modifies `offset, `line, `column, `tokens
      ensures Valid() && Scanned(ScanToken(source, old(offset)), old(tokens), old(offset), ok)
    {
      var c := source[offset];
      if c == '\0' {
        ok := false;
      } else if IsAlpha(c) {
        ok := Word();
      } else if IsDigit(c) {
        ok := Numeral();
      } else if IsQuote(c) {
        ok := Quoted();
      } else {
        ok := Operator();
      }
    }

    /** Read all tokens. It succeeds exactly if the source is short enough, is made of tokens, and
        there are not too many of them. */
    method Tokenize() returns (ok: bool)
      requires Valid() && offset == 0 && tokens == []
      modifies this
      ensures ok <==> |source| <= SOURCE_LIMIT && Lex(source, 0).Some? && |Lex(source, 0).value| <= TOKEN_LIMIT
      ensures ok ==> tokens == Lex(source, 0).value
    {
      hide Lex, Ignored, ScanToken, Place;
      if |source| > SOURCE_LIMIT { return false; }
      ok := true;
      Nothing(Lex(source, 0));
      while ok && offset < |source|
        invariant Valid() && (ok ==> |tokens| <= TOKEN_LIMIT)
        invariant if ok then Continues(Lex(source, 0), tokens, Lex(source, offset)) else Fails(Lex(source, 0))
        decreases ok, |source| - offset
      {
        ghost var start, before := offset, tokens;
        ok := SkipIgnored();
        if !ok {
          NothingMore(source, start, before);
        } else if offset < |source| {
          ghost var begin := offset;
          ok := Token();
          if ok {
            OneMore(source, start, before);
          } else {
            NothingMore(source, start, before);
          }
        } else {
          SkippedToEnd(source, start);
        }
      }
      if ok {
        LexEnd(source);
        ok := Emit(EOF, |source|, 0, Position(line, column));
        assert source[..|source|] == source;
      }
    }
  }

  /** All tokens are those read so far and the rest. */
  ghost predicate Continues(whole: Option<seq<Lexeme>>, done: seq<Lexeme>, rest: Option<seq<Lexeme>>) {
    if rest.None? then whole.None? else whole == Some(done + rest.value)
  }

  lemma IgnoredStep(src: string, i: nat)
    requires i <= |src|
    ensures var j := Run(src, i, |src|, IsSpace);
      Ignored(src, i)
      == if !CommentAt(src, j) then Some(j)
         else if LongBracketAt(src, j + 2) then None
         else Ignored(src, Run(src, j + 2, |src|, IsLineByte))
  {
    hide LongBracketAt, Run;
  }

  lemma NoLineEnds(k: Kind)
    ensures forall i :: 0 <= i < |Spelling(k)| ==> IsLineByte(Spelling(k)[i])
  {
  }

  ghost predicate Fails(whole: Option<seq<Lexeme>>) { whole.None? || |whole.value| > TOKEN_LIMIT }

  lemma Nothing(whole: Option<seq<Lexeme>>)
    ensures Continues(whole, [], whole)
  {
    assert whole.Some? ==> [] + whole.value == whole.value;
  }

  /** One token further. */
  lemma OneMore(src: string, i: nat, done: seq<Lexeme>)
    requires i <= |src| && Continues(Lex(src, 0), done, Lex(src, i))
    requires var j := Ignored(src, i); j.Some? && j.value < |src| && ScanToken(src, j.value).Some?
    ensures var j := Ignored(src, i).value; var s := ScanToken(src, j).value;
      Continues(Lex(src, 0), done + [Placed(src, j, s)], Lex(src, s.next))
  {
    hide Ignored, ScanToken, Place;
    var j := Ignored(src, i).value;
    var s := ScanToken(src, j).value;
    var rest := Lex(src, s.next);
    assert rest.Some? ==> done + ([Placed(src, j, s)] + rest.value) == done + [Placed(src, j, s)] + rest.value;
  }

  /** No token further, or no room for it. */
  lemma NothingMore(src: string, i: nat, done: seq<Lexeme>)
    requires i <= |src| && Continues(Lex(src, 0), done, Lex(src, i))
    requires var j := Ignored(src, i);
      j.None? || (j.value < |src| && (ScanToken(src, j.value).None? || |done| >= TOKEN_LIMIT))
    ensures Fails(Lex(src, 0))
  {
    hide Ignored, ScanToken, Place;
  }

  lemma LexEnd(src: string)
    ensures Lex(src, |src|) == Some([EndLexeme(src)])
  {
  }

  lemma SkippedToEnd(src: string, i: nat)
    requires i <= |src| && Ignored(src, i) == Some(|src|)
    ensures Lex(src, i) == Lex(src, |src|)
  {
  }
}
