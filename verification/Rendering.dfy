/** Writing tokens back as source: separated by spaces, a list of well-spelt tokens is lexed to
    itself. */
module Rendering {
  import opened Tokens
  import opened Syntax
  import opened Lexis
  import opened Spellings

  /** A quote that a string's text can stand between: a double one if that is possible. */
  function QuoteOf(text: string): (q: char)
    ensures IsQuote(q)
  {
    if QuotedText(text, '"') then '"' else '\''
  }

  /** A token's bytes; a string's text goes between quotes. */
  function Raw(t: Token): string {
    if t.kind == Kind.String then [QuoteOf(t.text)] + t.text + [QuoteOf(t.text)] else t.text
  }

  /** Each token with a space after it. */
  function Rendered(ts: seq<Token>): string {
    if ts == [] then "" else Raw(ts[0]) + [' '] + Rendered(ts[1..])
  }

  /** A token is spelled as its kind demands, a string with either quote. */
  ghost predicate Spellable(t: Token) { Spelt(t, '"') || Spelt(t, '\'') }

  ghost predicate AllSpelt(ts: seq<Token>) { forall k :: 0 <= k < |ts| ==> Spellable(ts[k]) }

  /** What the parser sees of a token: its kind and its bytes. */
  function TokenOf(src: string, l: Lexeme): Token {
    Token(l.kind, if l.offset + l.length <= |src| then src[l.offset..l.offset + l.length] else "")
  }

  function TokensOf(src: string, ls: seq<Lexeme>): (ts: seq<Token>)
    ensures |ts| == |ls|
  {
    if ls == [] then [] else [TokenOf(src, ls[0])] + TokensOf(src, ls[1..])
  }

  const END: Token := Token(EOF, "")

  // ---- words -------------------------------------------------------------------------------

  /** The keyword with a given length, first byte and second byte. */
  function Unspell(s: string): Kind {
    var a, b := if |s| > 0 then s[0] else ' ', if |s| > 1 then s[1] else ' ';
    if |s| == 2 then (if a == 'd' then Do else if a == 'o' then Or else if b == 'f' then If else In)
    else if |s| == 3 then
      if a == 'a' then And else if a == 'e' then End else if a == 'f' then For else if b == 'i' then Nil else Not
    else if |s| == 4 then (if a == 'e' then Else else if b == 'h' then Then else True)
    else if |s| == 5 then
      if a == 'b' then Break else if a == 'f' then False else if a == 'l' then Local else While
    else if |s| == 6 then (if a == 'e' then Elseif else Return)
    else Function
  }

  lemma Unspelled(k: Kind)
    requires IsKeyword(k)
    ensures Unspell(Spelling(k)) == k
  {
  }

  lemma {:induction false} KeywordFound(n: nat, m: nat)
    requires m <= n < |KEYWORDS|
    ensures KeywordFrom(Spelling(KEYWORDS[n]), m) == KEYWORDS[n]
    decreases n - m
  {
    hide Spelling;
    KeywordsAreWords();
    Unspelled(KEYWORDS[n]);
    Unspelled(KEYWORDS[m]);
    if m < n && Spelling(KEYWORDS[m]) != Spelling(KEYWORDS[n]) {
      KeywordFound(n, m + 1);
    }
  }

  lemma EarlyKeywords()
    ensures {And, Break, Do, Else, Elseif, End, False, For, Function} <= (set k | k in KEYWORDS)
  {
    assert KEYWORDS[0] == And && KEYWORDS[1] == Break && KEYWORDS[2] == Do && KEYWORDS[3] == Else && KEYWORDS[4] == Elseif;
    assert KEYWORDS[5] == End && KEYWORDS[6] == False && KEYWORDS[7] == For && KEYWORDS[8] == Function;
  }

  lemma LateKeywords()
    ensures {If, In, Local, Nil, Not, Or, Return, Then, True, While} <= (set k | k in KEYWORDS)
  {
    assert KEYWORDS[9] == If && KEYWORDS[10] == In && KEYWORDS[11] == Local && KEYWORDS[12] == Nil && KEYWORDS[13] == Not;
    assert KEYWORDS[14] == Or && KEYWORDS[15] == Return && KEYWORDS[16] == Then && KEYWORDS[17] == True;
    assert KEYWORDS[18] == While;
  }

  lemma IsListed(k: Kind)
    requires IsKeyword(k)
    ensures k in KEYWORDS
  {
    EarlyKeywords();
    LateKeywords();
    assert k in {And, Break, Do, Else, Elseif, End, False, For, Function}
        || k in {If, In, Local, Nil, Not, Or, Return, Then, True, While};
  }

  lemma KeywordIsWord(k: Kind)
    requires IsKeyword(k)
    ensures WordText(Spelling(k))
  {
  }

  lemma KeywordText(k: Kind)
    requires IsKeyword(k)
    ensures WordText(Spelling(k)) && KeywordFrom(Spelling(k), 0) == k
  {
    hide KeywordFrom, WordText, Spelling, IsKeyword;
    IsListed(k);
    var n: nat :| n < |KEYWORDS| && KEYWORDS[n] == k;
    KeywordFound(n, 0);
    KeywordIsWord(k);
  }

  /** What a word is lexed as. */
  predicate WordIs(t: Token) { WordText(t.text) && KeywordFrom(t.text, 0) == t.kind }

  lemma IdentifierIs(t: Token)
    requires Spellable(t) && t.kind == Identifier
    ensures WordIs(t)
  {
    hide Spelling;
    KeywordIs(t.text, 0);
  }

  /** Nothing is skipped before a byte that is neither space nor a dash before another dash. */
  lemma NotIgnored(src: string, i: nat)
    requires i < |src| && !IsSpace(src[i]) && !CommentAt(src, i)
    ensures Ignored(src, i) == Some(i)
  {
  }

  lemma WordReads(src: string, i: nat, t: Token)
    requires WordIs(t) && Holds(src, i, t.text + [' '])
    ensures ScanToken(src, i) == Some(Scan(t.kind, i, |t.text|, i + |t.text|)) && Ignored(src, i) == Some(i)
  {
    hide KeywordFrom;
    TextThere(src, i, t.text, [' ']);
    var e := i + |t.text|;
    RunIs(src, i, e, |src|, IsAlnum);
    NotIgnored(src, i);
  }

  /** The bytes of s, and those of what follows it. */
  lemma TextThere(src: string, i: nat, s: string, rest: string)
    requires Holds(src, i, s + rest)
    ensures i + |s| + |rest| <= |src| && src[i..i + |s|] == s
    ensures Holds(src, i, s) && Holds(src, i + |s|, rest)
    ensures forall k :: i <= k < i + |s| ==> src[k] == s[k - i]
    ensures rest != [] ==> src[i + |s|] == rest[0]
  {
    forall k | i <= k < i + |s| ensures src[k] == s[k - i] {
      assert src[i + (k - i)] == (s + rest)[k - i];
    }
    forall k | 0 <= k < |rest| ensures src[i + |s| + k] == rest[k] {
      assert src[i + (|s| + k)] == (s + rest)[|s| + k];
    }
  }

  // ---- operators ---------------------------------------------------------------------------

  predicate IsOperator(k: Kind) { !IsKeyword(k) && k !in {EOF, Identifier, Number, Kind.String} }

  lemma LoneFound(k: Kind)
    requires IsOperator(k) && |Spelling(k)| == 1 && Spelling(k)[0] !in {'/', '.', '~', '=', '<', '>'}
    ensures LoneOperator(Spelling(k)[0]) == Some(k)
  {
  }

  lemma LongFound(src: string, i: nat, k: Kind)
    requires IsOperator(k) && Holds(src, i, Spelling(k) + [' ']) && Spelling(k)[0] in {'/', '.', '~', '=', '<', '>'}
    ensures OperatorAt(src, i) == Some(k)
  {
    TextThere(src, i, Spelling(k), [' ']);
    hide Holds;
  }

  lemma OperatorNonempty(k: Kind)
    requires IsOperator(k)
    ensures Spelling(k) != [] && (Spelling(k)[0] in {'/', '.', '~', '=', '<', '>'} || |Spelling(k)| == 1)
    ensures !IsAlnum(Spelling(k)[0]) && !IsSpace(Spelling(k)[0]) && !IsQuote(Spelling(k)[0]) && Spelling(k)[0] != '\0'
    ensures Spelling(k)[0] == '-' || Spelling(k)[0] == '[' ==> |Spelling(k)| == 1
    ensures |Spelling(k)| > 1 ==> !IsDigit(Spelling(k)[1])
  {
  }

  lemma OperatorReads(src: string, i: nat, k: Kind)
    requires IsOperator(k) && Holds(src, i, Spelling(k) + [' '])
    ensures ScanToken(src, i) == Some(Scan(k, i, |Spelling(k)|, i + |Spelling(k)|)) && Ignored(src, i) == Some(i)
  {
    hide Spelling, OperatorAt, LoneOperator, Ignored, NumberEnd, ScanWord, StringEnd;
    OperatorNonempty(k);
    TextThere(src, i, Spelling(k), [' ']);
    if Spelling(k)[0] in {'/', '.', '~', '=', '<', '>'} {
      LongFound(src, i, k);
    } else {
      LoneFound(k);
      LoneThere(src, i);
    }
    NotIgnored(src, i);
  }

  lemma LoneThere(src: string, i: nat)
    requires i < |src| && src[i] !in {'/', '.', '~', '=', '<', '>'}
    ensures OperatorAt(src, i) == LoneOperator(src[i])
  {
  }

  // ---- numerals ----------------------------------------------------------------------------

  lemma HexReads(src: string, i: nat, t: string)
    requires HexText(t) && Holds(src, i, t + [' '])
    ensures DigitAt(src, i) && NumberEnd(src, i) == Some(i + |t|)
  {
    hide MantissaEnd, ExponentEnd;
    TextThere(src, i, t, [' ']);
    assert forall k :: 2 <= k < |t| ==> t[k] == t[2..][k - 2];
    RunIs(src, i + 2, i + |t|, |src|, IsHex);
  }

  lemma MantissaReads(src: string, i: nat, t: string)
    requires MantissaText(t) && Holds(src, i, t)
    requires i + |t| < |src| && src[i + |t|] != '.' && !IsDigit(src[i + |t|])
    ensures DigitAt(src, i) || (At(src, i, '.') && DigitAt(src, i + 1))
    ensures MantissaEnd(src, i) == i + |t|
  {
    if t != [] && All(t, IsDigit) {
      assert src[i] == t[0];
      forall k | i <= k < i + |t| ensures IsDigit(src[k]) {
        assert src[i + (k - i)] == t[k - i];
      }
      RunIs(src, i, i + |t|, |src|, IsDigit);
    } else {
      var p: nat :| PointedText(t, p);
      PointReads(src, i, t, p);
    }
  }

  lemma PointReads(src: string, i: nat, t: string, p: nat)
    requires PointedText(t, p) && Holds(src, i, t)
    requires i + |t| < |src| && src[i + |t|] != '.' && !IsDigit(src[i + |t|])
    ensures DigitAt(src, i) || (At(src, i, '.') && DigitAt(src, i + 1))
    ensures MantissaEnd(src, i) == i + |t|
  {
    assert src[i] == t[0] && src[i + 1] == t[1] && src[i + p] == t[p];
    assert forall k :: 0 <= k < p ==> t[k] == t[..p][k];
    assert forall k :: p + 1 <= k < |t| ==> t[k] == t[p + 1..][k - p - 1];
    assert p + 1 < |t| ==> src[i + p + 1] == t[p + 1];
    forall k | i <= k < i + p ensures IsDigit(src[k]) {
      assert src[i + (k - i)] == t[k - i];
    }
    forall k | i + p + 1 <= k < i + |t| ensures IsDigit(src[k]) {
      assert src[i + (k - i)] == t[k - i];
    }
    RunIs(src, i, i + p, |src|, IsDigit);
    RunIs(src, i + p + 1, i + |t|, |src|, IsDigit);
  }

  lemma ExponentReads(src: string, i: nat, t: string)
    requires ExponentText(t) && Holds(src, i, t + [' '])
    ensures ExponentEnd(src, i) == Some(i + |t|)
  {
    TextThere(src, i, t, [' ']);
    if t != [] {
      var j := if t[1] == '+' || t[1] == '-' then 2 else 1;
      assert forall k :: j <= k < |t| ==> t[k] == t[j..][k - j];
      RunIs(src, i + j, i + |t|, |src|, IsDigit);
    }
  }

  lemma NumberReads(src: string, i: nat, t: string)
    requires NumberText(t) && Holds(src, i, t + [' '])
    ensures DigitAt(src, i) || (At(src, i, '.') && DigitAt(src, i + 1))
    ensures NumberEnd(src, i) == Some(i + |t|)
  {
    hide MantissaEnd, ExponentEnd, HexEnd, MantissaText;
    TextThere(src, i, t, [' ']);
    if HexText(t) {
      HexReads(src, i, t);
    } else {
      var m: nat :| DecimalText(t, m);
      assert t + [' '] == t[..m] + (t[m..] + [' ']);
      TextThere(src, i, t[..m], t[m..] + [' ']);
      MantissaReads(src, i, t[..m]);
      ExponentReads(src, i + m, t[m..]);
      NoHexPrefix(src, i, t, m);
    }
  }

  /** A decimal numeral does not look hexadecimal. */
  lemma NoHexPrefix(src: string, i: nat, t: string, m: nat)
    requires DecimalText(t, m) && Holds(src, i, t + [' '])
    ensures !HexPrefixAt(src, i)
  {
    TextThere(src, i, t, [' ']);
    if At(src, i, '0') {
      assert m >= 1 && t[..m][0] == '0';
      if m > 1 {
        assert t[..m][1] == t[1];
        if !All(t[..m], IsDigit) {
          var p: nat :| PointedText(t[..m], p);
          assert p > 1 ==> t[..m][..p][1] == t[1];
        }
      } else {
        assert t[m..] != [] ==> t[m..][0] == t[1];
      }
    }
  }

  lemma NumeralReads(src: string, i: nat, t: string)
    requires NumberText(t) && Holds(src, i, t + [' '])
    ensures ScanToken(src, i) == Some(Scan(Number, i, |t|, i + |t|)) && Ignored(src, i) == Some(i)
  {
    hide NumberText, NumberEnd, OperatorAt, LongBracketAt;
    NumberReads(src, i, t);
    NotIgnored(src, i);
  }

  // ---- strings -----------------------------------------------------------------------------

  lemma StringReads(src: string, i: nat, t: string, q: char)
    requires QuotedText(t, q) && IsQuote(q) && Holds(src, i, [q] + t + [q] + [' '])
    ensures ScanToken(src, i) == Some(Scan(Kind.String, i + 1, |t|, i + |t| + 2)) && Ignored(src, i) == Some(i)
  {
    hide StringEnd;
    assert [q] + t + [q] + [' '] == [q] + ((t + [q]) + [' ']);
    TextThere(src, i, [q], (t + [q]) + [' ']);
    TextThere(src, i + 1, t + [q], [' ']);
    assert src[i] == [q][0];
    StringLocal(src, i + 1, t + [q], 0, q);
    NotIgnored(src, i);
  }

  // ---- token lists -------------------------------------------------------------------------

  /** The text of a token begins here. */
  function TextStart(t: Token, i: nat): nat { if t.kind == Kind.String then i + 1 else i }

  lemma TokenReads(src: string, i: nat, t: Token)
    requires Spellable(t) && Holds(src, i, Raw(t) + [' '])
    ensures ScanToken(src, i) == Some(Scan(t.kind, TextStart(t, i), |t.text|, i + |Raw(t)|))
    ensures Ignored(src, i) == Some(i) && i < |src|
  {
    hide ScanToken, Ignored, Holds, WordText, NumberText, QuotedText, Spelling, KeywordFrom, IsKeywordText;
    if t.kind == Identifier {
      IdentifierIs(t);
      WordReads(src, i, t);
    } else if t.kind == Number {
      NumeralReads(src, i, t.text);
    } else if t.kind == Kind.String {
      StringReads(src, i, t.text, QuoteOf(t.text));
    } else {
      FixedReads(src, i, t);
    }
    Something(src, i, Raw(t));
  }

  lemma FixedReads(src: string, i: nat, t: Token)
    requires t == Fixed(t.kind) && (IsKeyword(t.kind) || IsOperator(t.kind)) && Holds(src, i, t.text + [' '])
    ensures ScanToken(src, i) == Some(Scan(t.kind, i, |t.text|, i + |t.text|)) && Ignored(src, i) == Some(i)
  {
    hide ScanToken, Ignored, Holds, WordText, Spelling, KeywordFrom;
    if IsKeyword(t.kind) {
      KeywordText(t.kind);
      WordReads(src, i, t);
    } else {
      OperatorReads(src, i, t.kind);
    }
  }

  lemma Something(src: string, i: nat, s: string)
    requires Holds(src, i, s + [' '])
    ensures i < |src|
  {
  }

  /** The text of a rendered token is where the lexer says it is. */
  lemma TokenBack(src: string, i: nat, t: Token)
    requires Holds(src, i, Raw(t) + [' '])
    ensures TextStart(t, i) + |t.text| <= |src| && src[TextStart(t, i)..TextStart(t, i) + |t.text|] == t.text
    ensures At(src, i + |Raw(t)|, ' ')
  {
    TextThere(src, i, Raw(t), [' ']);
    if t.kind == Kind.String {
      var q := [QuoteOf(t.text)];
      assert Raw(t) == q + (t.text + q);
      TextThere(src, i, q, t.text + q);
      TextThere(src, i + 1, t.text, q);
    }
  }

  lemma SpaceSkipped(src: string, i: nat)
    requires At(src, i, ' ')
    ensures Lex(src, i) == Lex(src, i + 1)
  {
    hide ScanToken, Place, LongBracketAt;
    assert Run(src, i, |src|, IsSpace) == Run(src, i + 1, |src|, IsSpace);
    assert Ignored(src, i) == Ignored(src, i + 1);
  }

  /** Tokens written with a space after each are lexed to themselves, and then the source ends. */
  lemma {:induction false} RenderedLexes(src: string, i: nat, ts: seq<Token>)
    requires AllSpelt(ts) && Holds(src, i, Rendered(ts)) && i + |Rendered(ts)| == |src|
    ensures Lex(src, i).Some? && TokensOf(src, Lex(src, i).value) == ts + [END]
    decreases ts
  {
    hide ScanToken, Ignored, Spellable, Raw, Place, Lex, TokensOf;
    if ts == [] {
      EndReads(src);
      assert ts + [END] == [END];
    } else {
      var t := ts[0];
      var s := Raw(t) + [' '];
      TextThere(src, i, s, Rendered(ts[1..]));
      TokenReads(src, i, t);
      TokenBack(src, i, t);
      SpaceSkipped(src, i + |Raw(t)|);
      RenderedLexes(src, i + |s|, ts[1..]);
      FirstRead(src, i, t);
      assert [t] + (ts[1..] + [END]) == ts + [END];
    }
  }

  /** One token, and those after it. */
  lemma FirstRead(src: string, i: nat, t: Token)
    requires i < |src| && Ignored(src, i) == Some(i)
    requires ScanToken(src, i) == Some(Scan(t.kind, TextStart(t, i), |t.text|, i + |Raw(t)|))
    requires TextStart(t, i) + |t.text| <= |src| && src[TextStart(t, i)..TextStart(t, i) + |t.text|] == t.text
    requires i + |Raw(t)| <= |src| && Lex(src, i + |Raw(t)|).Some?
    ensures Lex(src, i).Some?
    ensures TokensOf(src, Lex(src, i).value) == [t] + TokensOf(src, Lex(src, i + |Raw(t)|).value)
  {
    hide ScanToken, Ignored, Raw, Place;
    var l := Placed(src, i, ScanToken(src, i).value);
    var rest := Lex(src, i + |Raw(t)|).value;
    assert Lex(src, i) == Some([l] + rest);
    FirstToken(src, l, rest);
  }

  lemma FirstToken(src: string, l: Lexeme, rest: seq<Lexeme>)
    ensures TokensOf(src, [l] + rest) == [TokenOf(src, l)] + TokensOf(src, rest)
  {
    assert ([l] + rest)[1..] == rest;
  }

  lemma EndReads(src: string)
    ensures Lex(src, |src|).Some? && TokensOf(src, Lex(src, |src|).value) == [END]
  {
    hide ScanToken, Place, LongBracketAt;
    assert Ignored(src, |src|) == Some(|src|);
    assert src[|src|..|src|] == "";
    FirstToken(src, EndLexeme(src), []);
    assert [EndLexeme(src)] + [] == [EndLexeme(src)];
  }

  // ---- the tokens of a source --------------------------------------------------------------

  lemma {:induction false} TokenAt(src: string, ls: seq<Lexeme>, k: nat)
    requires k < |ls|
    ensures TokensOf(src, ls)[k] == TokenOf(src, ls[k])
    decreases ls
  {
    if k > 0 {
      TokenAt(src, ls[1..], k - 1);
    }
  }

  lemma WellSpeltIs(src: string, l: Lexeme)
    requires WellSpelt(src, l)
    ensures Spellable(TokenOf(src, l))
  {
    hide WordText, NumberText, QuotedText, IsKeywordText, Spelling;
  }

  lemma FrontIsSpelt(src: string, ls: seq<Lexeme>, k: nat)
    requires Tiled(src, 0, ls) && k + 1 < |ls|
    ensures Spellable(TokensOf(src, ls)[k])
  {
    hide Tiled, Spellable, WellSpelt, TokensOf, Place;
    TiledWithin(src, 0, ls, k);
    WellSpeltIs(src, ls[k]);
    TokenAt(src, ls, k);
  }

  lemma LastIsEnd(src: string, ls: seq<Lexeme>)
    requires Tiled(src, 0, ls) && ls != []
    ensures TokensOf(src, ls)[|ls| - 1] == END
  {
    hide Tiled, WellSpelt, TokensOf, Place;
    TiledWithin(src, 0, ls, |ls| - 1);
    TokenAt(src, ls, |ls| - 1);
    NothingLeft(src, ls[|ls| - 1]);
  }

  /** Every token of an accepted source but its end is spelled as its kind demands, so writing the
      tokens with spaces between them gives a source of the same tokens. */
  lemma LexedIsSpelt(src: string)
    requires Lex(src, 0).Some?
    ensures var ts := TokensOf(src, Lex(src, 0).value);
      && ts != [] && AllSpelt(ts[..|ts| - 1])
      && Lex(Rendered(ts[..|ts| - 1]), 0).Some?
      && TokensOf(Rendered(ts[..|ts| - 1]), Lex(Rendered(ts[..|ts| - 1]), 0).value) == ts
  {
    hide Lex, Tiled, Spellable, Rendered, TokensOf;
    var ls := Lex(src, 0).value;
    var ts := TokensOf(src, ls);
    var front := ts[..|ts| - 1];
    LexTiles(src, 0);
    forall k | 0 <= k < |front| ensures Spellable(front[k]) {
      FrontIsSpelt(src, ls, k);
    }
    LastIsEnd(src, ls);
    assert front + [END] == ts;
    RenderedLexes(Rendered(front), 0, front);
  }

  lemma NothingLeft(src: string, l: Lexeme)
    requires l.kind == EOF && l.offset == |src| && Spellings.End(l) <= |src|
    ensures TokenOf(src, l) == END
  {
  }
}
