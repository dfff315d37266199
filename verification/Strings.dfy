/** String literals: the decoder that gives a literal's bytes, and why it cannot fail on a token the
    lexer accepts. */
module Strings {
  import opened Tokens
  import opened Syntax
  import opened Lexis
  import opened Spellings

  function HexValue(c: char): int
    requires IsHex(c)
    ensures 0 <= HexValue(c) < 16
  {
    if IsDigit(c) then c as int - '0' as int
    else if 'a' <= c <= 'f' then 10 + (c as int - 'a' as int)
    else 10 + (c as int - 'A' as int)
  }

  /** What an escape sequence stands for, and where it ends. */
  datatype Unescaped = Unescaped(text: string, next: nat)

  lemma {:induction false} DecimalBounds(src: string, i: nat, e: nat)
    requires i <= e <= |src| && forall k :: i <= k < e ==> IsDigit(src[k])
    ensures DecimalValue(src, i, e) >= 0
    decreases e - i
  {
    if i < e {
      DecimalBounds(src, i, e - 1);
    }
  }

  /** The escape sequence whose backslash is just before i, in a literal that ends at `end`. */
  function Unescape(src: string, i: nat, end: nat): (r: Option<Unescaped>)
    requires i < end <= |src|
    ensures r.Some? ==> i < r.value.next <= end && |r.value.text| <= 1
  {
    var c := src[i];
    if SimpleEscape(c).Some? then Some(Unescaped([SimpleEscape(c).value], i + 1))
    else if c == 'x' then
      if i + 2 < end && IsHex(src[i + 1]) && IsHex(src[i + 2]) then
        Some(Unescaped([(HexValue(src[i + 1]) * 16 + HexValue(src[i + 2])) as char], i + 3))
      else None
    else if c == 'z' then Some(Unescaped("", Run(src, i + 1, end, IsSpace)))
    else if c == '\r' then Some(Unescaped("\n", if i + 1 < end && src[i + 1] == '\n' then i + 2 else i + 1))
    else if c == '\n' then Some(Unescaped("\n", i + 1))
    else if IsDigit(c) then
      var e := DecimalEnd(src, i, end);
      DecimalBounds(src, i, e);
      if DecimalValue(src, i, e) > 255 then None else Some(Unescaped([DecimalValue(src, i, e) as char], e))
    else None
  }

  /** The bytes that the literal src[i..end] stands for. */
  function Decode(src: string, i: nat, end: nat): (r: Option<string>)
    requires i <= end <= |src|
    ensures r.Some? ==> |r.value| <= end - i
    decreases end - i
  {
    if i == end then Some("")
    else if src[i] != '\\' then Before([src[i]], Decode(src, i + 1, end))
    else if i + 1 == end then None
    else
      var u := Unescape(src, i + 1, end);
      if u.None? then None else Before(u.value.text, Decode(src, u.value.next, end))
  }

  function Before(text: string, rest: Option<string>): Option<string> {
    if rest.None? then None else Some(text + rest.value)
  }

  // ---- accepted literals are decoded -------------------------------------------------------

  /** An escape the lexer passes is one the decoder knows, and they agree on where it ends. */
  lemma EscapeDecodes(src: string, i: nat, end: nat)
    requires i < end < |src| && IsQuote(src[end])
    requires EscapeEnd(src, i).Some? && EscapeEnd(src, i).value <= end
    ensures Unescape(src, i, end).Some? && Unescape(src, i, end).value.next == EscapeEnd(src, i).value
  {
    hide DecimalValue;
    if src[i] == 'z' {
      var e := Run(src, i + 1, |src|, IsSpace);
      RunIs(src, i + 1, e, end, IsSpace);
    }
  }

  lemma {:induction false} LiteralDecodes(src: string, i: nat, quote: char)
    requires i <= |src| && IsQuote(quote) && StringEnd(src, i, quote).Some?
    ensures Decode(src, i, StringEnd(src, i, quote).value).Some?
    decreases |src| - i
  {
    hide EscapeEnd, Unescape;
    var end := StringEnd(src, i, quote).value;
    if i < end {
      if src[i] != '\\' {
        LiteralDecodes(src, i + 1, quote);
      } else {
        var e := EscapeEnd(src, i + 1).value;
        LiteralDecodes(src, e, quote);
        EscapeDecodes(src, i + 1, end);
      }
    }
  }

  /** The decoder has bytes for a token, and no more of them than the token has. */
  predicate IsDecoded(src: string, l: Lexeme) {
    && l.offset + l.length <= |src|
    && Decode(src, l.offset, l.offset + l.length).Some?
    && |Decode(src, l.offset, l.offset + l.length).value| <= l.length
  }

  /** Every string token of an accepted source is decoded, to no more bytes than the token has. */
  lemma {:induction false} AcceptedIsDecoded(src: string, i: nat, k: nat)
    requires i <= |src| && Lex(src, i).Some? && k < |Lex(src, i).value| && Lex(src, i).value[k].kind == Kind.String
    ensures IsDecoded(src, Lex(src, i).value[k])
    decreases |src| - i
  {
    hide Ignored, ScanToken, Place, IsDecoded;
    var j := Ignored(src, i).value;
    if j < |src| {
      var s := ScanToken(src, j).value;
      if k == 0 {
        StringScanned(src, j);
      } else {
        AcceptedIsDecoded(src, s.next, k - 1);
      }
    }
  }

  lemma StringScanned(src: string, j: nat)
    requires j < |src| && ScanToken(src, j).Some? && ScanToken(src, j).value.kind == Kind.String
    ensures IsDecoded(src, Placed(src, j, ScanToken(src, j).value))
  {
    hide Decode, ScanWord, ScanOperator, NumberEnd, StringEnd, Place;
    if IsAlpha(src[j]) {
      WordSpelt(src, j);
    } else if IsDigit(src[j]) {
    } else if IsQuote(src[j]) {
      LiteralDecodes(src, j + 1, src[j]);
    } else {
      OperatorSpelt(src, j);
    }
  }

  // ---- a literal by itself -----------------------------------------------------------------

  /** The bytes that the text of a string token stands for. */
  function Decoded(text: string): Option<string> { Decode(text, 0, |text|) }

  function Later(u: Option<Unescaped>, n: nat): Option<Unescaped> {
    if u.None? then None else Some(Unescaped(u.value.text, u.value.next + n))
  }

  lemma {:induction false} SameRun(src: string, a: nat, b: nat, i: nat, p: char -> bool)
    requires a <= b <= |src| && i <= b - a
    ensures Run(src, a + i, b, p) == a + Run(src[a..b], i, b - a, p)
    decreases b - a - i
  {
    if i < b - a && p(src[a + i]) {
      SameRun(src, a, b, i + 1, p);
    }
  }

  lemma {:induction false} SameDecimal(src: string, a: nat, b: nat, i: nat, e: nat)
    requires a <= b <= |src| && i <= e <= b - a
    ensures DecimalValue(src, a + i, a + e) == DecimalValue(src[a..b], i, e)
    decreases e - i
  {
    if i < e {
      SameDecimal(src, a, b, i, e - 1);
    }
  }

  lemma SameUnescape(src: string, a: nat, b: nat, i: nat)
    requires a <= b <= |src| && i < b - a
    ensures Unescape(src, a + i, b) == Later(Unescape(src[a..b], i, b - a), a)
  {
    hide DecimalValue, Run, IsSpace, SimpleEscape, HexValue;
    SameRun(src, a, b, i + 1, IsSpace);
    if IsDigit(src[a + i]) {
      var e := DecimalEnd(src[a..b], i, b - a);
      assert DecimalEnd(src, a + i, b) == a + e;
      SameDecimal(src, a, b, i, e);
    }
  }

  /** What a literal stands for depends on its own bytes alone. */
  lemma {:induction false} DecodeIsLocal(src: string, a: nat, b: nat, i: nat)
    requires a <= b <= |src| && i <= b - a
    ensures Decode(src, a + i, b) == Decode(src[a..b], i, b - a)
    decreases b - a - i
  {
    hide Unescape;
    if i < b - a {
      if src[a + i] != '\\' {
        DecodeIsLocal(src, a, b, i + 1);
      } else if i + 1 < b - a {
        SameUnescape(src, a, b, i + 1);
        var u := Unescape(src[a..b], i + 1, b - a);
        if u.Some? {
          DecodeIsLocal(src, a, b, u.value.next);
        }
      }
    }
  }

  // ---- the decoder -------------------------------------------------------------------------

  /** Decode a string token of a source into a buffer, with a zero byte after the last one. It
      succeeds exactly if the token is a string within the source, the buffer has more room than
      the token has bytes, and every escape is known. */
  method DecodeString(source: string, token: Lexeme, output: array<char>) returns (ok: bool, written: nat)
    modifies output
    ensures ok <==> && token.kind == Kind.String && token.offset + token.length <= |source| && token.length < output.Length
                    && Decode(source, token.offset, token.offset + token.length).Some?
    ensures ok ==> written < output.Length
    ensures ok ==> Decode(source, token.offset, token.offset + token.length) == Some(output[..written])
    ensures ok ==> output[written] == '\0'
  {
    written := 0;
    if token.kind != Kind.String || token.offset + token.length > |source| || output.Length <= token.length {
      return false, 0;
    }
    var cursor, end := token.offset, token.offset + token.length;
    ok := true;
    StartsEmpty(output[..0], Decode(source, cursor, end));
    while ok && cursor < end
      invariant token.offset <= cursor <= end && written <= cursor - token.offset
      invariant if ok then Decode(source, token.offset, end) == Before(output[..written], Decode(source, cursor, end))
                else Decode(source, token.offset, end).None?
      decreases ok, end - cursor
    {
      var c := source[cursor];
      ghost var done, at := output[..written], cursor;
      cursor := cursor + 1;
      if c != '\\' {
        output[written] := c;
        written := written + 1;
        assert output[..written] == done + [c];
        Longer(done, [c], Decode(source, cursor, end));
      } else if cursor == end {
        ok := false;
      } else {
        var u := UnescapeAt(source, cursor, end);
        ok := u.Some?;
        if ok {
          cursor := u.value.next;
          if u.value.text != "" {
            output[written] := u.value.text[0];
            written := written + 1;
          }
          assert output[..written] == done + u.value.text;
          Longer(done, u.value.text, Decode(source, cursor, end));
        }
      }
    }
    if ok {
      ghost var done := output[..written];
      output[written] := '\0';
      assert output[..written] == done && done + "" == done;
    }
  }

  method UnescapeAt(source: string, cursor: nat, end: nat) returns (u: Option<Unescaped>)
    requires cursor < end <= |source|
    ensures u == Unescape(source, cursor, end)
  {
    var c, next := source[cursor], cursor + 1;
    if SimpleEscape(c).Some? { return Some(Unescaped([SimpleEscape(c).value], next)); }
    if c == 'x' {
      if next + 1 >= end || !IsHex(source[next]) || !IsHex(source[next + 1]) { return None; }
      return Some(Unescaped([(HexValue(source[next]) * 16 + HexValue(source[next + 1])) as char], next + 2));
    }
    if c == 'z' {
      while next < end && IsSpace(source[next])
        invariant next <= end && Run(source, cursor + 1, end, IsSpace) == Run(source, next, end, IsSpace)
      {
        next := if source[next] == '\r' && next + 1 < end && source[next + 1] == '\n' then next + 2 else next + 1;
      }
      return Some(Unescaped("", next));
    }
    if c == '\r' { return Some(Unescaped("\n", if next < end && source[next] == '\n' then next + 1 else next)); }
    if c == '\n' { return Some(Unescaped("\n", next)); }
    if !IsDigit(c) { return None; }
    var value, digits := DigitValue(c), 1;
    while digits < 3 && next < end && IsDigit(source[next])
      invariant 1 <= digits <= 3 && next == cursor + digits <= end
      invariant value == DecimalValue(source, cursor, next)
      invariant forall k :: cursor <= k < next ==> IsDigit(source[k])
    {
      value := value * 10 + DigitValue(source[next]);
      next := next + 1;
      digits := digits + 1;
    }
    DecimalBounds(source, cursor, next);
    if value > 255 { return None; }
    u := Some(Unescaped([value as char], next));
  }

  lemma StartsEmpty(none: string, rest: Option<string>)
    requires none == ""
    ensures Before(none, rest) == rest
  {
    assert rest.Some? ==> "" + rest.value == rest.value;
  }

  lemma Longer(done: string, text: string, rest: Option<string>)
    ensures Before(done, Before(text, rest)) == Before(done + text, rest)
  {
    assert rest.Some? ==> done + (text + rest.value) == done + text + rest.value;
  }

  // ---- writing a literal -------------------------------------------------------------------

  function HexDigit(n: nat): (c: char)
    requires n < 16
    ensures IsHex(c) && HexValue(c) == n
  {
    if n < 10 then ('0' as int + n) as char else ('a' as int + n - 10) as char
  }

  predicate Plain(c: char) { ' ' <= c <= '~' && !IsQuote(c) && c != '\\' }

  predicate Bytes(s: string) { forall k :: 0 <= k < |s| ==> s[k] < '\U{100}' }

  /** A byte as a literal writes it: as itself, or as two hexadecimal digits. */
  function EscapedByte(c: char): string
    requires c < '\U{100}'
  {
    if Plain(c) then [c] else ['\\', 'x', HexDigit(c as int / 16), HexDigit(c as int % 16)]
  }

  function Escaped(s: string): string
    requires Bytes(s)
  {
    if s == [] then [] else EscapedByte(s[0]) + Escaped(s[1..])
  }

  /** The literal of any bytes is accepted between quotes, wherever it is written, and decodes to
      those bytes. */
  lemma {:induction false} EscapedDecodes(s: string, src: string, i: nat, quote: char)
    requires Bytes(s) && IsQuote(quote) && Holds(src, i, Escaped(s) + [quote])
    ensures StringEnd(src, i, quote) == Some(i + |Escaped(s)|)
    ensures Decode(src, i, i + |Escaped(s)|) == Some(s)
    decreases s
  {
    hide StringEnd, Decode, EscapedByte, IsQuote;
    var t := Escaped(s) + [quote];
    if s == [] {
      assert src[i] == t[0];
      NothingDecodes(src, i, quote);
    } else {
      var e := EscapedByte(s[0]);
      var rest := Escaped(s[1..]) + [quote];
      assert t == e + rest;
      HoldsParts(src, i, e, rest);
      EscapedDecodes(s[1..], src, i + |e|, quote);
      FirstAndRest(s);
      ByteDecodes(s[0], src, i, quote, i + |Escaped(s)|);
    }
  }

  lemma FirstAndRest(s: string)
    requires s != []
    ensures Before([s[0]], Some(s[1..])) == Some(s)
  {
    assert [s[0]] + s[1..] == s;
  }

  lemma NothingDecodes(src: string, i: nat, quote: char)
    requires At(src, i, quote) && IsQuote(quote)
    ensures StringEnd(src, i, quote) == Some(i) && Decode(src, i, i) == Some("")
  {
  }

  lemma ByteDecodes(c: char, src: string, i: nat, quote: char, end: nat)
    requires c < '\U{100}' && IsQuote(quote) && Holds(src, i, EscapedByte(c)) && i + |EscapedByte(c)| <= end <= |src|
    ensures StringEnd(src, i, quote) == StringEnd(src, i + |EscapedByte(c)|, quote)
    ensures Decode(src, i, end) == Before([c], Decode(src, i + |EscapedByte(c)|, end))
  {
    var e := EscapedByte(c);
    assert src[i] == e[0];
    if !Plain(c) {
      assert src[i + 1] == e[1] && src[i + 2] == e[2] && src[i + 3] == e[3];
      assert EscapeEnd(src, i + 1) == Some(i + 4);
      assert Unescape(src, i + 1, end) == Some(Unescaped([c], i + 4));
    }
  }

  lemma HoldsParts(src: string, i: nat, s: string, t: string)
    requires Holds(src, i, s + t)
    ensures Holds(src, i, s) && Holds(src, i + |s|, t)
  {
    forall k | 0 <= k < |s| ensures src[i + k] == s[k] {
      assert (s + t)[k] == s[k];
    }
    forall k | 0 <= k < |t| ensures src[i + |s| + k] == t[k] {
      assert (s + t)[|s| + k] == t[k] && src[i + (|s| + k)] == (s + t)[|s| + k];
    }
  }
}
