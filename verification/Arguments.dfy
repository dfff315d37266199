/** The parameters of a Book on the command line: words with quotes in them, and named values. */
module Arguments {
  import opened Syntax

  const ARGUMENT_LIMIT: nat := 16
  const NAME_BLOCK: nat := 64
  const VALUE_BLOCK: nat := 512
  const TOKEN_BLOCK: nat := NAME_BLOCK + VALUE_BLOCK + 8

  predicate IsSpace(c: char) { c == ' ' || '\t' <= c <= '\r' }

  predicate IsQuote(c: char) { c == '"' || c == '\'' }

  /** What reading a word gives: none is left, the word and what comes after it, or an error. */
  datatype Word = NoWord | Word(text: string, rest: string) | BadWord

  /** The bytes after the spaces at the head of t. */
  function Unspaced(t: string): (r: string)
    ensures |r| <= |t| && (r != "" ==> !IsSpace(r[0]))
  {
    if t != "" && IsSpace(t[0]) then Unspaced(t[1..]) else t
  }

  /** The rest of a word inside the given quotes, if any, when room for so many bytes is left. A
      backslash in quotes stands for nothing before the same quote or another backslash. */
  function WordFrom(t: string, quote: Option<char>, room: nat): (w: Word)
    ensures !w.NoWord? && (w.Word? ==> |w.rest| <= |t|)
    ensures w.Word? && t != "" && (quote.Some? || !IsSpace(t[0])) ==> |w.rest| < |t|
    decreases |t|
  {
    if t == "" then (if quote.Some? then BadWord else Word("", ""))
    else if quote.None? && IsSpace(t[0]) then Word("", t)
    else if IsQuote(t[0]) && quote.None? then WordFrom(t[1..], Some(t[0]), room)
    else if quote == Some(t[0]) then WordFrom(t[1..], None, room)
    else
      var escaped := quote.Some? && t[0] == '\\' && |t| > 1 && (t[1] == quote.value || t[1] == '\\');
      var skip := if escaped then 1 else 0;
      if room == 0 then BadWord
      else
        var w := WordFrom(t[skip + 1..], quote, room - 1);
        if w.Word? then Word([t[skip]] + w.text, w.rest) else w
  }

  /** The next word, in a buffer of so many bytes. */
  function NextWord(t: string, capacity: nat): (w: Word)
    requires capacity > 0
    ensures w.Word? ==> |w.rest| < |t|
  {
    var u := Unspaced(t);
    if u == "" then NoWord else WordFrom(u, None, capacity - 1)
  }

  /** A word with some bytes before it. */
  function After(before: string, w: Word): Word { if w.Word? then Word(before + w.text, w.rest) else w }

  lemma Nothing(w: Word)
    ensures After("", w) == w
  {
    assert w.Word? ==> "" + w.text == w.text;
  }

  lemma OneMore(before: string, c: char, w: Word)
    ensures After(before, After([c], w)) == After(before + [c], w)
  {
    assert w.Word? ==> before + ([c] + w.text) == before + [c] + w.text;
  }

  predicate Escapes(t: string, i: nat, quote: Option<char>) {
    quote.Some? && i + 1 < |t| && t[i] == '\\' && (t[i + 1] == quote.value || t[i + 1] == '\\')
  }

  /** One byte further in a word. */
  lemma WordStep(t: string, i: nat, quote: Option<char>, room: nat)
    requires i < |t| && (quote.Some? || !IsSpace(t[i]))
    ensures var skip := if Escapes(t, i, quote) then 1 else 0;
      WordFrom(t[i..], quote, room)
      == if IsQuote(t[i]) && quote.None? then WordFrom(t[i + 1..], Some(t[i]), room)
         else if quote == Some(t[i]) then WordFrom(t[i + 1..], None, room)
         else if room == 0 then BadWord
         else After([t[i + skip]], WordFrom(t[i + skip + 1..], quote, room - 1))
  {
    var u := t[i..];
    assert u[1..] == t[i + 1..];
    if Escapes(t, i, quote) {
      assert u[2..] == t[i + 2..];
    }
  }

  lemma WordOver(t: string, i: nat, room: nat)
    requires i <= |t| && (i < |t| ==> IsSpace(t[i]))
    ensures WordFrom(t[i..], None, room) == Word("", t[i..])
  {
  }

  lemma WordUnclosed(t: string, quote: char, room: nat)
    ensures WordFrom(t[|t|..], Some(quote), room) == BadWord
  {
  }

  lemma SpacesSkipped(t: string, i: nat)
    requires i < |t|
    ensures IsSpace(t[i]) ==> Unspaced(t[i..]) == Unspaced(t[i + 1..])
    ensures !IsSpace(t[i]) ==> Unspaced(t[i..]) == t[i..]
  {
    assert t[i..][1..] == t[i + 1..];
  }

  /** The next word as the cursor finds it. */
  method ReadWord(t: string, start: nat, capacity: nat) returns (w: Word, end: nat)
    requires start <= |t| && capacity > 0
    ensures w == NextWord(t[start..], capacity) && start <= end <= |t| && (w.Word? ==> w.rest == t[end..] && start < end)
  {
    hide WordFrom, Unspaced, IsSpace, IsQuote;
    end := start;
    while end < |t| && IsSpace(t[end])
      invariant start <= end <= |t| && Unspaced(t[end..]) == Unspaced(t[start..])
    {
      SpacesSkipped(t, end);
      end := end + 1;
    }
    if end == |t| {
      NoneLeft(t);
      return NoWord, end;
    }
    SpacesSkipped(t, end);
    w, end := ReadBytes(t, end, capacity);
  }

  lemma NoneLeft(t: string)
    ensures Unspaced(t[|t|..]) == ""
  {
  }

  /** The bytes of a word, in and out of quotes. */
  method ReadBytes(t: string, start: nat, capacity: nat) returns (w: Word, end: nat)
    requires start < |t| && !IsSpace(t[start]) && capacity > 0
    ensures w == WordFrom(t[start..], None, capacity - 1) && start < end <= |t| && (w.Word? ==> w.rest == t[end..])
  {
    hide WordFrom, IsSpace, IsQuote;
    var word, quote: Option<char> := "", None;
    ghost var whole := WordFrom(t[start..], None, capacity - 1);
    Nothing(whole);
    end := start;
    while end < |t| && (quote.Some? || !IsSpace(t[end]))
      invariant start <= end <= |t| && |word| <= capacity - 1 && (end == start ==> quote.None?)
      invariant whole == After(word, WordFrom(t[end..], quote, capacity - 1 - |word|))
    {
      var c := t[end];
      WordStep(t, end, quote, capacity - 1 - |word|);
      if IsQuote(c) && quote.None? {
        quote := Some(c);
      } else if quote == Some(c) {
        quote := None;
      } else {
        if Escapes(t, end, quote) {
          end := end + 1;
          c := t[end];
        }
        if |word| + 1 >= capacity { return BadWord, end + 1; }
        OneMore(word, c, WordFrom(t[end + 1..], quote, capacity - 2 - |word|));
        word := word + [c];
      }
      end := end + 1;
    }
    if quote.Some? {
      WordUnclosed(t, quote.value, capacity - 1 - |word|);
      return BadWord, end;
    }
    WordOver(t, end, capacity - 1 - |word|);
    assert word + "" == word;
    w := Word(word, t[end..]);
  }

  // ---- parameters --------------------------------------------------------------------------

  predicate NameStart(c: char) { 'a' <= c <= 'z' || 'A' <= c <= 'Z' || c == '_' }

  predicate NameByte(c: char) { NameStart(c) || '0' <= c <= '9' || c == '-' }

  predicate ValidName(n: string) {
    0 < |n| < NAME_BLOCK && NameStart(n[0]) && forall k :: 0 <= k < |n| ==> NameByte(n[k])
  }

  datatype Argument = Argument(name: string, value: string)

  datatype Invocation = Help | Given(arguments: seq<Argument>) | Invalid

  predicate IsNew(n: string, sofar: seq<Argument>) { forall k :: 0 <= k < |sofar| ==> sofar[k].name != n }

  /** What is before and after the first equals sign. */
  function SplitEquals(t: string): Option<(string, string)> {
    if t == "" then None
    else if t[0] == '=' then Some(("", t[1..]))
    else
      var r := SplitEquals(t[1..]);
      if r.None? then None else Some(([t[0]] + r.value.0, r.value.1))
  }

  predicate HasPrefix(t: string, p: string) { |p| <= |t| && t[..|p|] == p }

  /** Parameters from t on, after those in sofar. */
  function ParametersFrom(t: string, sofar: seq<Argument>): (i: Invocation)
    decreases |t|
  {
    var w := NextWord(t, TOKEN_BLOCK);
    if w.BadWord? then Invalid
    else if w.NoWord? then Given(sofar)
    else if !HasPrefix(w.text, "--") then Invalid
    else if w.text == "--help" then (if sofar == [] && NextWord(w.rest, TOKEN_BLOCK).NoWord? then Help else Invalid)
    else
      var split := SplitEquals(w.text[2..]);
      var name := if split.Some? then split.value.0 else w.text[2..];
      if name == "help" || !ValidName(name) || |sofar| >= ARGUMENT_LIMIT || !IsNew(name, sofar) then Invalid
      else if split.Some? then
        if |split.value.1| >= VALUE_BLOCK then Invalid
        else ParametersFrom(w.rest, sofar + [Argument(name, split.value.1)])
      else
        var v := NextWord(w.rest, VALUE_BLOCK);
        if !v.Word? || HasPrefix(v.text, "--") then Invalid
        else ParametersFrom(v.rest, sofar + [Argument(name, v.text)])
  }

  /** A whole command: `book`, the Book's name, and its parameters. */
  function Parse(command: string, book: string): Invocation {
    var first := NextWord(command, TOKEN_BLOCK);
    if !first.Word? || first.text != "book" then Invalid
    else
      var second := NextWord(first.rest, TOKEN_BLOCK);
      if !second.Word? || second.text != book then Invalid else ParametersFrom(second.rest, [])
  }

  // ---- what is accepted --------------------------------------------------------------------

  predicate WellFormed(args: seq<Argument>) {
    && |args| <= ARGUMENT_LIMIT
    && (forall k :: 0 <= k < |args| ==> ValidName(args[k].name) && args[k].name != "help" && |args[k].value| < VALUE_BLOCK)
    && (forall j, k :: 0 <= j < k < |args| ==> args[j].name != args[k].name)
  }

  lemma {:induction false} WordBounded(t: string, quote: Option<char>, room: nat)
    ensures WordFrom(t, quote, room).Word? ==> |WordFrom(t, quote, room).text| <= room
    decreases |t|
  {
    if t != "" && !(quote.None? && IsSpace(t[0])) {
      if IsQuote(t[0]) && quote.None? {
        WordBounded(t[1..], Some(t[0]), room);
      } else if quote == Some(t[0]) {
        WordBounded(t[1..], None, room);
      } else if room > 0 {
        WordBounded(t[1..], quote, room - 1);
        if |t| > 1 {
          WordBounded(t[2..], quote, room - 1);
        }
      }
    }
  }

  lemma MoreFormed(args: seq<Argument>, a: Argument)
    requires WellFormed(args) && |args| < ARGUMENT_LIMIT && IsNew(a.name, args)
    requires ValidName(a.name) && a.name != "help" && |a.value| < VALUE_BLOCK
    ensures WellFormed(args + [a])
  {
  }

  /** Whatever is accepted has at most the limit of parameters, with different valid names and values
      within their size. */
  lemma {:induction false} AcceptedIsFormed(t: string, sofar: seq<Argument>)
    requires WellFormed(sofar)
    ensures ParametersFrom(t, sofar).Given? ==> WellFormed(ParametersFrom(t, sofar).arguments)
    decreases |t|
  {
    hide WordFrom, ValidName, WellFormed, IsNew, SplitEquals;
    var w := NextWord(t, TOKEN_BLOCK);
    if w.Word? && HasPrefix(w.text, "--") && w.text != "--help" {
      var split := SplitEquals(w.text[2..]);
      var name := if split.Some? then split.value.0 else w.text[2..];
      if name != "help" && ValidName(name) && |sofar| < ARGUMENT_LIMIT && IsNew(name, sofar) {
        if split.Some? {
          if |split.value.1| < VALUE_BLOCK {
            MoreFormed(sofar, Argument(name, split.value.1));
            AcceptedIsFormed(w.rest, sofar + [Argument(name, split.value.1)]);
          }
        } else {
          var v := NextWord(w.rest, VALUE_BLOCK);
          WordBounded(Unspaced(w.rest), None, VALUE_BLOCK - 1);
          if v.Word? {
            MoreFormed(sofar, Argument(name, v.text));
            AcceptedIsFormed(v.rest, sofar + [Argument(name, v.text)]);
          }
        }
      }
    }
  }

  // ---- writing a command -------------------------------------------------------------------

  /** A value between double quotes: quotes and backslashes get a backslash. */
  function Escaped(v: string): string {
    if v == "" then "" else (if v[0] == '"' || v[0] == '\\' then ['\\', v[0]] else [v[0]]) + Escaped(v[1..])
  }

  function RenderedArgument(a: Argument): string { " --" + (a.name + ("=\"" + (Escaped(a.value) + "\""))) }

  function RenderedArguments(args: seq<Argument>): string {
    if args == [] then "" else RenderedArgument(args[0]) + RenderedArguments(args[1..])
  }

  function RenderedCommand(book: string, args: seq<Argument>): string { "book" + (" " + (book + RenderedArguments(args))) }

  predicate Ends(t: string) { t == "" || IsSpace(t[0]) }

  /** Reading a quoted value back. */
  lemma {:induction false} ValueReads(v: string, rest: string, room: nat)
    requires |v| <= room && Ends(rest)
    ensures WordFrom(Escaped(v) + ("\"" + rest), Some('"'), room) == Word(v, rest)
    decreases v
  {
    hide WordFrom, IsSpace, IsQuote;
    var t := Escaped(v) + ("\"" + rest);
    assert t[0..] == t;
    WordStep(t, 0, Some('"'), room);
    if v == "" {
      assert t == "\"" + rest && t[1..] == rest;
      assert rest[0..] == rest;
      EndsOver(rest, room);
    } else {
      var u := Escaped(v[1..]) + ("\"" + rest);
      ValueReads(v[1..], rest, room - 1);
      assert [v[0]] + v[1..] == v;
      if v[0] == '"' || v[0] == '\\' {
        assert t == ['\\', v[0]] + u && t[2..] == u;
      } else {
        assert t == [v[0]] + u && t[1..] == u;
      }
    }
  }

  lemma EndsOver(t: string, room: nat)
    requires Ends(t)
    ensures WordFrom(t, None, room) == Word("", t)
  {
  }

  /** Bytes that a word takes as they are outside quotes. */
  predicate Plain(t: string) { forall k :: 0 <= k < |t| ==> !IsSpace(t[k]) && !IsQuote(t[k]) }

  lemma {:induction false} PlainReads(t: string, rest: string, room: nat)
    requires Plain(t) && |t| <= room
    ensures WordFrom(t + rest, None, room) == After(t, WordFrom(rest, None, room - |t|))
    decreases t
  {
    if t == "" {
      assert t + rest == rest;
      Nothing(WordFrom(rest, None, room));
    } else {
      PlainReads(t[1..], rest, room - 1);
      assert (t + rest)[1..] == t[1..] + rest;
      OneMore([], t[0], WordFrom(rest, None, room - |t|));
      FirstBytes(t, WordFrom(rest, None, room - |t|));
    }
  }

  lemma FirstBytes(t: string, w: Word)
    requires t != ""
    ensures After(t, w) == After([t[0]], After(t[1..], w))
  {
    assert [t[0]] + t[1..] == t;
    OneMoreText([t[0]], t[1..], w);
  }

  lemma OneMoreText(a: string, b: string, w: Word)
    ensures After(a, After(b, w)) == After(a + b, w)
  {
    assert w.Word? ==> a + (b + w.text) == a + b + w.text;
  }

  /** A rendered parameter is read as one word. */
  lemma ArgumentReads(a: Argument, rest: string)
    requires ValidName(a.name) && |a.value| < VALUE_BLOCK && Ends(rest)
    ensures NextWord(RenderedArgument(a) + rest, TOKEN_BLOCK) == Word("--" + a.name + "=" + a.value, rest)
  {
    hide WordFrom, Escaped;
    var head := "--" + a.name + "=";
    var tail := Escaped(a.value) + ("\"" + rest);
    var room := TOKEN_BLOCK - 1;
    assert RenderedArgument(a) + rest == " " + (head + ("\"" + tail));
    Skipped(head + ("\"" + tail));
    NameIsPlain(a.name);
    PlainReads(head, "\"" + tail, room);
    ValueReads(a.value, rest, room - |head|);
    QuoteReads(tail, room - |head|);
  }

  lemma NameIsPlain(n: string)
    requires ValidName(n)
    ensures Plain("--" + n + "=")
  {
  }

  lemma Skipped(t: string)
    requires t != "" && !IsSpace(t[0])
    ensures Unspaced(" " + t) == t
  {
    assert (" " + t)[1..] == t;
  }

  lemma QuoteReads(tail: string, room: nat)
    ensures WordFrom("\"" + tail, None, room) == WordFrom(tail, Some('"'), room)
  {
    assert ("\"" + tail)[1..] == tail;
  }

  lemma {:induction false} SplitsAtEquals(n: string, v: string)
    requires forall k :: 0 <= k < |n| ==> n[k] != '='
    ensures SplitEquals(n + "=" + v) == Some((n, v))
    decreases n
  {
    var t := n + "=" + v;
    if n == "" {
      assert t[0] == '=' && t[1..] == v;
    } else {
      SplitsAtEquals(n[1..], v);
      assert t[1..] == n[1..] + "=" + v && [n[0]] + n[1..] == n;
    }
  }

  lemma RestEnds(args: seq<Argument>)
    ensures Ends(RenderedArguments(args))
  {
  }

  /** Its word is a name and a value. */
  lemma WordSplits(a: Argument)
    requires ValidName(a.name)
    ensures var w := "--" + a.name + "=" + a.value;
      HasPrefix(w, "--") && w != "--help" && SplitEquals(w[2..]) == Some((a.name, a.value))
  {
    var w := "--" + a.name + "=" + a.value;
    assert w[2..] == a.name + "=" + a.value;
    assert w[2 + |a.name|] == '=';
    SplitsAtEquals(a.name, a.value);
  }

  /** One rendered parameter is accepted and the rest follows. */
  lemma ArgumentTaken(a: Argument, rest: string, sofar: seq<Argument>)
    requires ValidName(a.name) && a.name != "help" && |a.value| < VALUE_BLOCK && Ends(rest)
    requires |sofar| < ARGUMENT_LIMIT && IsNew(a.name, sofar)
    ensures ParametersFrom(RenderedArgument(a) + rest, sofar) == ParametersFrom(rest, sofar + [a])
  {
    hide NextWord, SplitEquals, RenderedArgument, HasPrefix, ValidName, IsNew;
    ArgumentReads(a, rest);
    WordSplits(a);
  }

  lemma {:induction false} ArgumentsRead(args: seq<Argument>, sofar: seq<Argument>)
    requires WellFormed(sofar + args)
    ensures ParametersFrom(RenderedArguments(args), sofar) == Given(sofar + args)
    decreases args
  {
    hide RenderedArgument, ParametersFrom, ValidName, NextWord;
    if args == [] {
      NoArguments(sofar);
      assert sofar + [] == sofar;
    } else {
      var a := args[0];
      assert (sofar + args)[|sofar|] == a;
      forall k | 0 <= k < |sofar| ensures sofar[k].name != a.name {
        assert (sofar + args)[k] == sofar[k];
      }
      RestEnds(args[1..]);
      ArgumentTaken(a, RenderedArguments(args[1..]), sofar);
      assert sofar + [a] + args[1..] == sofar + args;
      ArgumentsRead(args[1..], sofar + [a]);
    }
  }

  lemma NoArguments(sofar: seq<Argument>)
    ensures ParametersFrom("", sofar) == Given(sofar)
  {
  }

  /** Any parameters with different valid names, none of them `help`, written with their values
      quoted and escaped, are read back exactly and in order. */
  lemma CommandRoundTrip(book: string, args: seq<Argument>)
    requires Plain(book) && 0 < |book| < TOKEN_BLOCK && WellFormed(args)
    ensures Parse(RenderedCommand(book, args), book) == Given(args)
  {
    hide WordFrom, ParametersFrom, RenderedArguments;
    var tail := RenderedArguments(args);
    RestEnds(args);
    var second := " " + (book + tail);
    PlainReads("book", second, TOKEN_BLOCK - 1);
    EndsOver(second, TOKEN_BLOCK - 5);
    Skipped(book + tail);
    PlainReads(book, tail, TOKEN_BLOCK - 1);
    EndsOver(tail, TOKEN_BLOCK - 1 - |book|);
    assert "book" + "" == "book" && book + "" == book;
    ArgumentsRead(args, []);
    assert [] + args == args;
  }

  // ---- the parser --------------------------------------------------------------------------

  /** Read the parameters word by word. */
  method ParseArguments(command: string, book: string) returns (i: Invocation)
    ensures i == Parse(command, book)
  {
    hide NextWord, ValidName, SplitEquals, IsNew, ParametersFrom;
    assert command[0..] == command;
    var w, cursor := ReadWord(command, 0, TOKEN_BLOCK);
    if !w.Word? || w.text != "book" { return Invalid; }
    w, cursor := ReadWord(command, cursor, TOKEN_BLOCK);
    if !w.Word? || w.text != book { return Invalid; }
    var arguments := [];
    while true
      invariant cursor <= |command| && Parse(command, book) == ParametersFrom(command[cursor..], arguments)
      decreases |command| - cursor
    {
      ghost var t := command[cursor..];
      Unfolded(t, arguments);
      w, cursor := ReadWord(command, cursor, TOKEN_BLOCK);
      if w.BadWord? { return Invalid; }
      if w.NoWord? { return Given(arguments); }
      if !HasPrefix(w.text, "--") { return Invalid; }
      if w.text == "--help" {
        if arguments != [] { return Invalid; }
        w, cursor := ReadWord(command, cursor, TOKEN_BLOCK);
        return if w.NoWord? then Help else Invalid;
      }
      var split := SplitEquals(w.text[2..]);
      var name := if split.Some? then split.value.0 else w.text[2..];
      var unused := Unused(name, arguments);
      if name == "help" || !ValidName(name) || |arguments| >= ARGUMENT_LIMIT || !unused { return Invalid; }
      var value;
      if split.Some? {
        value := split.value.1;
        if |value| >= VALUE_BLOCK { return Invalid; }
      } else {
        w, cursor := ReadWord(command, cursor, VALUE_BLOCK);
        if !w.Word? || HasPrefix(w.text, "--") { return Invalid; }
        value := w.text;
      }
      arguments := arguments + [Argument(name, value)];
    }
  }

  method Unused(name: string, arguments: seq<Argument>) returns (unused: bool)
    ensures unused == IsNew(name, arguments)
  {
    var i := 0;
    while i < |arguments|
      invariant i <= |arguments| && forall k :: 0 <= k < i ==> arguments[k].name != name
    {
      if arguments[i].name == name { return false; }
      i := i + 1;
    }
    unused := true;
  }

  /** What the parameters are once the next word has been read. */
  lemma Unfolded(t: string, sofar: seq<Argument>)
    ensures var w := NextWord(t, TOKEN_BLOCK);
      ParametersFrom(t, sofar)
      == if w.BadWord? then Invalid
         else if w.NoWord? then Given(sofar)
         else if !HasPrefix(w.text, "--") then Invalid
         else if w.text == "--help" then (if sofar == [] && NextWord(w.rest, TOKEN_BLOCK).NoWord? then Help else Invalid)
         else WithName(w, sofar)
  {
    hide NextWord, ValidName, SplitEquals, IsNew;
  }

  /** What they are once a name has been read. */
  function WithName(w: Word, sofar: seq<Argument>): Invocation
    requires w.Word? && HasPrefix(w.text, "--")
  {
    var split := SplitEquals(w.text[2..]);
    var name := if split.Some? then split.value.0 else w.text[2..];
    if name == "help" || !ValidName(name) || |sofar| >= ARGUMENT_LIMIT || !IsNew(name, sofar) then Invalid
    else if split.Some? then
      if |split.value.1| >= VALUE_BLOCK then Invalid else ParametersFrom(w.rest, sofar + [Argument(name, split.value.1)])
    else
      var v := NextWord(w.rest, VALUE_BLOCK);
      if !v.Word? || HasPrefix(v.text, "--") then Invalid else ParametersFrom(v.rest, sofar + [Argument(name, v.text)])
  }
}
