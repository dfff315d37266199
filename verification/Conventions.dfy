/** The texts, digits and conditions that the rest of the program sees, written out. */
module Conventions {
  import opened Syntax
  import Values
  import Output
  import Persist
  import Rendered
  import Lexis
  import StringLibrary
  import Modules
  import Natives
  import Arguments
  import Session

  const DIGITS: string := "0123456789abcdef"
  const SMALL: string := "abcdefghijklmnopqrstuvwxyz"
  const CAPITAL: string := "ABCDEFGHIJKLMNOPQRSTUVWXYZ"

  // ---- the output file ---------------------------------------------------------------------

  function ColorText(c: Output.Color): string {
    if c.Green? then "green" else if c.Red? then "red" else if c.Yellow? then "yellow" else if c.Grey? then "grey" else "default"
  }

  /** Two digits for each byte. */
  function HexText(v: Output.ByteString): string {
    if v == "" then "" else [DIGITS[v[0] as int / 16], DIGITS[v[0] as int % 16]] + HexText(v[1..])
  }

  lemma {:induction false} HexIs(v: Output.ByteString)
    ensures Persist.Hex(v) == HexText(v)
    decreases |v|
  {
    if v != "" {
      HexIs(v[1..]);
      assert forall n :: 0 <= n < 16 ==> Persist.HexDigit(n) == DIGITS[n];
    }
  }

  /** The file is two lines and then one for each record. */
  lemma FileIs(name: string, rs: seq<Output.Record>, r: Output.Record)
    ensures Persist.Serialized(name, []) == "KAMINOWAKU_BOOK_OUT\t1\nBOOK\t" + name + "\n"
    ensures Persist.Serialized(name, rs + [r])
         == Persist.Serialized(name, rs) + ("FIELD\t" + ColorText(r.color) + "\t" + r.key + "\t" + HexText(r.value) + "\n")
  {
    hide Persist.Lines, Persist.Hex, ColorText, HexText, Persist.Line;
    LinesMore(rs, r);
    LineIs(r);
    NoLines(name);
  }

  lemma NoLines(name: string)
    ensures Persist.Serialized(name, []) == "KAMINOWAKU_BOOK_OUT\t1\nBOOK\t" + name + "\n"
  {
  }

  lemma LineIs(r: Output.Record)
    ensures Persist.Line(r) == "FIELD\t" + ColorText(r.color) + "\t" + r.key + "\t" + HexText(r.value) + "\n"
  {
    hide Persist.Hex, HexText;
    HexIs(r.value);
    assert Output.ColorName(r.color) == ColorText(r.color);
    hide Output.ColorName, ColorText;
  }

  lemma {:induction false} LinesMore(rs: seq<Output.Record>, r: Output.Record)
    ensures Persist.Lines(rs + [r]) == Persist.Lines(rs) + Persist.Line(r)
    decreases rs
  {
    hide Persist.Line;
    if rs != [] {
      assert (rs + [r])[1..] == rs[1..] + [r];
      LinesMore(rs[1..], r);
    } else {
      assert (rs + [r])[1..] == [];
    }
  }

  // ---- what may be staged ------------------------------------------------------------------

  /** A byte that a key cannot have. */
  predicate BadInKey(c: char) { c <= ' ' || c == '\U{7F}' || c == ':' || c == '\\' }

  /** A byte that a value cannot have. */
  predicate BadInValue(c: char) { (c < ' ' && c != '\t' && c != '\n' && c != '\r') || c == '\U{7F}' }

  /** A record is refused for its key or its value, or for lack of memory, and else limits decide. */
  lemma RefusedIs(t: Output.Staging, r: Output.Record, limits: Output.Limits, grants: Output.Grants)
    requires grants.stage && grants.room
    ensures Output.Emitted(t, r, limits, grants).status == Output.Refused
       <==> r.key == "" || |r.key| >= 64 || |r.value| >= limits.valueBlock
            || (exists k :: 0 <= k < |r.key| && BadInKey(r.key[k])) || exists k :: 0 <= k < |r.value| && BadInValue(r.value[k])
  {
    KeyIs(r.key);
    ValueIs(r.value, limits);
    hide Output.KeyValid, Output.ValueValid, BadInKey, BadInValue;
  }

  lemma KeyIs(key: string)
    ensures Output.KeyValid(key) <==> 0 < |key| < 64 && !exists k :: 0 <= k < |key| && BadInKey(key[k])
  {
    if 0 < |key| < 64 && !exists k :: 0 <= k < |key| && BadInKey(key[k]) {
      forall k | 0 <= k < |key| ensures key[k] >= '\U{21}' && key[k] != '\U{7F}' && key[k] != ':' && key[k] != '\\' {
        assert !BadInKey(key[k]);
      }
    }
  }

  lemma ValueIs(value: string, limits: Output.Limits)
    ensures Output.ValueValid(value, limits) <==> |value| < limits.valueBlock && !exists k :: 0 <= k < |value| && BadInValue(value[k])
  {
    if |value| < limits.valueBlock && !exists k :: 0 <= k < |value| && BadInValue(value[k]) {
      forall k | 0 <= k < |value|
        ensures (value[k] >= ' ' || value[k] == '\t' || value[k] == '\r' || value[k] == '\n') && value[k] != '\U{7F}'
      {
        assert !BadInValue(value[k]);
      }
    }
  }

  /** An emission gives a key, a value and perhaps a color, in this order; without one, or with nil, the
      color is the default one. */
  lemma EmitIs(key: Output.ByteString, value: Output.ByteString, c: Output.Color)
    requires 0 < |key| < 64
    ensures Natives.EmitArguments([Values.StrV(key), Values.StrV(value)]) == Some(Output.Record(key, value, Output.Default))
    ensures Natives.EmitArguments([Values.StrV(key), Values.StrV(value), Values.NilV]) == Some(Output.Record(key, value, Output.Default))
    ensures Natives.EmitArguments([Values.StrV(key), Values.StrV(value), Values.StrV(ColorText(c))]) == Some(Output.Record(key, value, c))
  {
    hide Persist.CString, Output.ParseColor;
    ColorIs(c);
    ColorIs(Output.Default);
  }

  lemma ColorIs(c: Output.Color)
    ensures Output.ParseColor(Persist.CString(ColorText(c))) == Some(c) && 0 < |ColorText(c)| < 32
  {
    Output.ColorReads(c);
    assert Output.ColorName(c) == ColorText(c);
    NoZero(ColorText(c));
  }

  lemma {:induction false} NoZero(t: string)
    requires forall k :: 0 <= k < |t| ==> t[k] != '\0'
    ensures Persist.CString(t) == t
    decreases t
  {
    if t != "" { NoZero(t[1..]); }
  }

  // ---- numerals ----------------------------------------------------------------------------

  /** What a digit is worth. */
  lemma DigitIs(d: nat, base: nat)
    requires d < base <= 36
    ensures d < 10 ==> StringLibrary.NumberIn([DIGITS[d]], base) == Some(d)
    ensures d >= 10 ==> StringLibrary.NumberIn([SMALL[d - 10]], base) == Some(d)
    ensures d >= 10 ==> StringLibrary.NumberIn([CAPITAL[d - 10]], base) == Some(d)
  {
    hide StringLibrary.NumberIn, StringLibrary.DigitOf;
    if d < 10 {
      FigureIs(d);
      OneDigit(DIGITS[d], d, base);
    } else {
      SmallIs(d - 10);
      CapitalIs(d - 10);
      OneDigit(SMALL[d - 10], d, base);
      OneDigit(CAPITAL[d - 10], d, base);
    }
  }

  lemma FigureIs(d: nat)
    requires d < 10
    ensures StringLibrary.DigitOf(DIGITS[d]) == d
  {
  }

  lemma SmallIs(n: nat)
    requires n < 26
    ensures StringLibrary.DigitOf(SMALL[n]) == 10 + n
  {
  }

  lemma CapitalIs(n: nat)
    requires n < 26
    ensures StringLibrary.DigitOf(CAPITAL[n]) == 10 + n
  {
  }

  lemma OneDigit(c: char, d: nat, base: nat)
    requires d < base <= 36 && StringLibrary.DigitOf(c) == d
    ensures StringLibrary.NumberIn([c], base) == Some(d)
  {
    hide StringLibrary.ValueOf, StringLibrary.DigitOf, StringLibrary.Unspaced;
    StringLibrary.NoDigits(base);
    StringLibrary.ValueSnoc("", c, base);
    assert "" + [c] == [c];
    NoBlank(c);
  }

  lemma NoBlank(c: char)
    requires StringLibrary.DigitOf(c) >= 0
    ensures StringLibrary.Unspaced([c]) == [c] && c != '-' && c != '+'
  {
    assert !Lexis.IsSpace(c);
    assert [c][0] == c && |[c]| == 1;
  }

  // ---- the gate ----------------------------------------------------------------------------

  /** The evidence is being captured, the file for it is open, there is time left, no limit has been
      reached, and the session is at work. */
  predicate Open(s: Session.State, remaining: int) {
    && s.captureActive && s.pcapOpen && remaining > 0
    && !s.termination.LimitError? && !s.phase.Created? && !s.phase.Closing? && !s.phase.Finalized?
  }

  /** Unless the gate is open, no operation of the transport does anything. */
  lemma GateIs(s: Session.State, to: nat, remaining: int, later: int, reachable: bool, connected: bool, moved: bool,
               readings: seq<Session.Reading>)
    requires !Open(s, remaining)
    ensures Session.TcpOpened(s, to, remaining, later, reachable, connected, readings) == Session.Outcome(false, s)
    ensures Session.UdpOpened(s, to, remaining, reachable, connected) == Session.Outcome(false, s)
    ensures Session.Transferred(s, remaining, later, moved, readings) == Session.Outcome(false, s)
  {
    hide Session.Connected, Session.Drained;
  }

  /** Through an open gate a stream is asked for exactly if there is a port, no transport yet and a
      reachable target. */
  lemma OpeningIs(s: Session.State, to: nat, remaining: int, later: int, reachable: bool, connected: bool,
                  readings: seq<Session.Reading>)
    requires Session.Sound(s) && Open(s, remaining)
    ensures var o := Session.TcpOpened(s, to, remaining, later, reachable, connected, readings);
      o.s.acts == s.acts + if to > 0 && !s.stream && !s.datagram && reachable then 1 else 0
  {
    hide Session.Sound, Session.Drained;
    if to > 0 && !s.stream && !s.datagram && reachable {
      ActsKept(Session.Acted(s.(transport := Session.Tcp, port := to), later).(stream := connected), readings);
    }
  }

  lemma ActsKept(s: Session.State, readings: seq<Session.Reading>)
    ensures Session.Drained(s, readings).s.acts == s.acts
  {
    FromKept(s, readings, 0);
  }

  lemma {:induction false} FromKept(s: Session.State, readings: seq<Session.Reading>, taken: nat)
    ensures Session.DrainedFrom(s, readings, taken).s.acts == s.acts
    decreases readings
  {
    if taken < Session.DRAIN_LIMIT && readings != [] && readings[0].Captured? {
      if !readings[0].frame.matches {
        FromKept(s, readings[1..], taken + 1);
      } else {
        var o := Session.Recorded(s, readings[0].frame);
        FromKept(o.s, readings[1..], taken + 1);
      }
    }
  }

  /** 16 bytes and the frame for each record. */
  function RecordsSize(fs: seq<Session.Frame>): nat {
    if fs == [] then 0 else RecordsSize(fs[..|fs| - 1]) + 16 + fs[|fs| - 1].length
  }

  lemma {:induction false} SizeIs(fs: seq<Session.Frame>)
    ensures Session.EvidenceBytes(fs) == RecordsSize(fs)
    decreases |fs|
  {
    if fs != [] { SizeIs(fs[..|fs| - 1]); }
  }

  /** The evidence file is a header of 24 bytes and the records, all of one of two link types. */
  lemma EvidenceIs(s: Session.State, k: nat)
    requires Session.Sound(s)
    ensures s.bytes == 24 + RecordsSize(s.frames)
    ensures k < |s.frames| ==> s.linktype == if s.frames[k].local then 101 else 1
  {
    SizeIs(s.frames);
  }

  // ---- module names ------------------------------------------------------------------------

  /** Names with dots between them. */
  function Dotted(names: seq<string>): string
    requires names != []
  {
    if |names| == 1 then names[0] else names[0] + "." + Dotted(names[1..])
  }

  predicate ByteOfName(c: char) { 'A' <= c <= 'Z' || 'a' <= c <= 'z' || '0' <= c <= '9' || c == '_' || c == '-' }

  predicate IsName(t: string) { 0 < |t| < 256 && forall k :: 0 <= k < |t| ==> ByteOfName(t[k]) }

  /** The directories of all names but the last, and a file of that. */
  function PathOf(names: seq<string>): seq<string>
    requires names != []
  {
    names[..|names| - 1] + [names[|names| - 1] + ".lua"]
  }

  lemma {:induction false} SegmentIs(t: string, rest: string)
    requires (forall k :: 0 <= k < |t| ==> ByteOfName(t[k])) && (rest == "" || rest[0] == '.')
    ensures Modules.Segment(t + rest) == t
    decreases t
  {
    if t == "" {
      assert t + rest == rest;
    } else {
      assert (t + rest)[1..] == t[1..] + rest;
      SegmentIs(t[1..], rest);
    }
  }

  lemma {:induction false} SegmentRead(t: string, rest: string, n: nat)
    requires (forall k :: 0 <= k < |t| ==> ByteOfName(t[k])) && n + |t| < 256
    ensures Modules.SegmentsFrom(t + rest, n) == Modules.SegmentsFrom(rest, n + |t|)
    decreases t
  {
    if t == "" {
      assert t + rest == rest;
    } else {
      assert (t + rest)[1..] == t[1..] + rest;
      SegmentRead(t[1..], rest, n + 1);
    }
  }

  lemma {:induction false} DottedReads(names: seq<string>)
    requires names != [] && forall k :: 0 <= k < |names| ==> IsName(names[k])
    ensures Modules.SegmentsFrom(Dotted(names), 0)
    ensures Modules.Components(Dotted(names)) == Some(PathOf(names))
    decreases names
  {
    hide Modules.SegmentsFrom, Modules.Components, IsName;
    if |names| == 1 {
      LastReads(names[0]);
      assert PathOf(names) == [names[0] + ".lua"];
    } else {
      DottedReads(names[1..]);
      FirstReads(names[0], Dotted(names[1..]), PathOf(names[1..]));
      assert PathOf(names) == [names[0]] + PathOf(names[1..]);
    }
  }

  lemma LastReads(t: string)
    requires IsName(t)
    ensures Modules.SegmentsFrom(t, 0) && Modules.Components(t) == Some([t + ".lua"])
  {
    assert t + "" == t;
    SegmentRead(t, "", 0);
    SegmentIs(t, "");
  }

  lemma FirstReads(t: string, rest: string, path: seq<string>)
    requires IsName(t) && Modules.SegmentsFrom(rest, 0) && Modules.Components(rest) == Some(path)
    ensures Modules.SegmentsFrom(t + "." + rest, 0) && Modules.Components(t + "." + rest) == Some([t] + path)
  {
    var u, tail := t + "." + rest, "." + rest;
    assert u == t + tail;
    SegmentRead(t, tail, 0);
    SegmentIs(t, tail);
    assert tail[1..] == rest && u[|t| + 1..] == rest;
    Onward(rest, |t|);
    assert Modules.SegmentsFrom(u, 0) by {
      assert Modules.SegmentsFrom(tail, |t|);
    }
    hide Modules.SegmentsFrom, Modules.Segment;
  }

  lemma Onward(rest: string, n: nat)
    requires n > 0 && Modules.SegmentsFrom(rest, 0)
    ensures Modules.SegmentsFrom("." + rest, n)
  {
    assert ("." + rest)[1..] == rest;
  }

  /** Names with dots between them behind one of three prefixes lead to a file in the directories of the
      names before the last. */
  lemma NameIs(names: seq<string>)
    requires names != [] && forall k :: 0 <= k < |names| ==> IsName(names[k])
    ensures |Dotted(names)| < 251 ==> Modules.CanonicalOf("kami." + Dotted(names)) == Some(Modules.Canonical(Modules.Kami, Dotted(names)))
    ensures |Dotted(names)| < 248 ==>
      Modules.CanonicalOf("modules." + Dotted(names)) == Some(Modules.Canonical(Modules.System, Dotted(names)))
    ensures |Dotted(names)| < 251 ==> Modules.CanonicalOf("user." + Dotted(names)) == Some(Modules.Canonical(Modules.User, Dotted(names)))
    ensures Modules.Components(Dotted(names)) == Some(PathOf(names))
  {
    DottedReads(names);
    hide Modules.SegmentsFrom, Modules.Components, Dotted;
    var t := Dotted(names);
    NotEmpty(names);
    Prefixed("kami.", Modules.Kami, t);
    Prefixed("modules.", Modules.System, t);
    Prefixed("user.", Modules.User, t);
  }

  lemma NotEmpty(names: seq<string>)
    requires names != [] && IsName(names[0])
    ensures Dotted(names) != ""
  {
  }

  predicate Leads(p: string, n: Modules.Namespace) {
    (p == "kami." && n == Modules.Kami) || (p == "modules." && n == Modules.System) || (p == "user." && n == Modules.User)
  }

  lemma Prefixed(p: string, n: Modules.Namespace, t: string)
    requires t != "" && Modules.SegmentsFrom(t, 0) && Leads(p, n)
    ensures |p| + |t| < 256 ==> Modules.CanonicalOf(p + t) == Some(Modules.Canonical(n, t))
  {
    hide Modules.SegmentsFrom, Modules.Under, Modules.Prefix, Leads;
    OnlyUnder(p, n, t);
    assert (p + t)[|p|..] == t;
  }

  lemma OnlyUnder(p: string, n: Modules.Namespace, t: string)
    requires t != "" && Leads(p, n)
    ensures |Modules.Prefix(n)| == |p|
    ensures forall m :: Modules.Under(p + t, m) <==> m == n
  {
    assert (p + t)[..|p|] == p;
    forall m ensures Modules.Under(p + t, m) <==> m == n {
      assert m != n ==> Modules.Prefix(m)[0] != p[0];
      assert (p + t)[0] == p[0];
    }
  }

  /** A module that is loaded now has the first value its body returned, or true if that is nil or
      there is none. */
  lemma ModuleIs(lib: Modules.Library, l: Modules.Load, name: string)
    requires Modules.IndexOf(l.entries, name) == |l.entries| && Modules.Required(lib, l, name).ok
    ensures Modules.CanonicalOf(name).Some?
    ensures var source := Modules.SourceOf(lib, Modules.Opened(l, name), Modules.CanonicalOf(name).value);
      && source.Some?
      && var vs := source.value.returned;
         Modules.Required(lib, l, name).value == if |vs| == 0 || vs[0] == Values.NilV then Values.BoolV(true) else vs[0]
  {
    hide Modules.IndexOf, Modules.Imported, Modules.SourceOf, Modules.CanonicalOf, Modules.Opened, Modules.Over;
  }

  // ---- parameters --------------------------------------------------------------------------

  predicate WordByte(c: char) { c != ' ' && !('\t' <= c <= '\r') && c != '"' && c != '\'' }

  predicate IsBare(t: string) { t != "" && forall k :: 0 <= k < |t| ==> WordByte(t[k]) }

  lemma BareIs(t: string)
    requires IsBare(t)
    ensures t != "" && Arguments.Plain(t) && !Arguments.IsSpace(t[0])
  {
  }

  /** Bytes without spaces and quotes are a word, also behind a space; in quotes they are the same word. */
  lemma BareWord(t: string, rest: string, capacity: nat)
    requires IsBare(t) && |t| < capacity && (rest == "" || rest[0] == ' ')
    ensures Arguments.NextWord(t + rest, capacity) == Arguments.Word(t, rest)
    ensures Arguments.NextWord(" " + (t + rest), capacity) == Arguments.Word(t, rest)
  {
    hide Arguments.WordFrom, Arguments.Plain, IsBare, Arguments.IsSpace;
    BareIs(t);
    Arguments.PlainReads(t, rest, capacity - 1);
    assert Arguments.Ends(rest) by { SpaceIs(rest); }
    Arguments.EndsOver(rest, capacity - 1 - |t|);
    assert t + "" == t;
    var u := t + rest;
    assert u[0] == t[0];
    Arguments.Skipped(u);
  }

  lemma SpaceIs(rest: string)
    ensures rest == "" || rest[0] == ' ' ==> Arguments.Ends(rest)
  {
  }

  predicate LetterByte(c: char) { 'a' <= c <= 'z' || 'A' <= c <= 'Z' || c == '_' }

  predicate IsParameter(n: string) {
    && 0 < |n| < 64 && LetterByte(n[0]) && n != "help"
    && forall k :: 0 <= k < |n| ==> LetterByte(n[k]) || '0' <= n[k] <= '9' || n[k] == '-'
  }

  /** The parameters begin behind the Book's name. */
  lemma Begins(book: string, more: string)
    requires IsBare(book) && |book| < 584 && (more == "" || more[0] == ' ')
    ensures Arguments.Parse("book " + book + more, book) == Arguments.ParametersFrom(more, [])
  {
    hide Arguments.NextWord, Arguments.ParametersFrom;
    var command, rest := "book " + book + more, " " + (book + more);
    assert IsBare("book") && rest[0] == ' ';
    hide IsBare;
    assert command == "book" + rest;
    BareWord("book", rest, 584);
    BareWord(book, more, 584);
  }

  lemma NoneGiven()
    ensures Arguments.ParametersFrom("", []) == Arguments.Given([])
  {
  }

  lemma ParameterIs(n: string)
    requires IsParameter(n)
    ensures Arguments.ValidName(n) && IsBare("--" + n) && forall k :: 0 <= k < |n| ==> n[k] != '='
  {
  }

  /** A parameter is given with an equals sign or as the word behind it. */
  lemma CommandIs(book: string, n: string, v: string)
    requires IsBare(book) && |book| < 584 && IsParameter(n) && IsBare(v) && |v| < 512
    ensures Arguments.Parse("book " + book, book) == Arguments.Given([])
    ensures Arguments.Parse("book " + book + (" --" + n + "=" + v), book) == Arguments.Given([Arguments.Argument(n, v)])
    ensures !Arguments.HasPrefix(v, "--") ==>
      Arguments.Parse("book " + book + (" --" + n + (" " + v)), book) == Arguments.Given([Arguments.Argument(n, v)])
  {
    hide Arguments.Parse, Arguments.ParametersFrom, IsBare, IsParameter;
    assert "book " + book + "" == "book " + book;
    Begins(book, "");
    NoneGiven();
    Begins(book, " --" + n + "=" + v);
    WithEquals(n, v);
    Begins(book, " --" + n + (" " + v));
    if !Arguments.HasPrefix(v, "--") { WithWord(n, v); }
  }

  lemma WithEquals(n: string, v: string)
    requires IsParameter(n) && IsBare(v) && |v| < 512
    ensures Arguments.ParametersFrom(" --" + n + "=" + v, []) == Arguments.Given([Arguments.Argument(n, v)])
  {
    hide Arguments.NextWord, IsParameter, IsBare, Arguments.ValidName, Arguments.SplitEquals;
    var t, w := " --" + n + "=" + v, "--" + n + "=" + v;
    var args := [Arguments.Argument(n, v)];
    ParameterIs(n);
    EqualsWord(n, v);
    assert w[2..] == n + "=" + v;
    Arguments.SplitsAtEquals(n, v);
    NoEquals(n, v);
    assert n != "help" by { NotHelp(n); }
    assert [] + args == args;
    NoWordLeft(args);
  }

  lemma NotHelp(n: string)
    requires IsParameter(n)
    ensures n != "help" && 0 < |n| < 64
  {
  }

  lemma EqualsWord(n: string, v: string)
    requires IsParameter(n) && IsBare(v) && |v| < 512
    ensures Arguments.NextWord(" --" + n + "=" + v, 584) == Arguments.Word("--" + n + "=" + v, "")
  {
    hide Arguments.NextWord, IsParameter, IsBare;
    var t, w := " --" + n + "=" + v, "--" + n + "=" + v;
    ParameterIs(n);
    NotHelp(n);
    BareJoined("--" + n, v);
    assert w + "" == w && t == " " + (w + "");
    BareWord(w, "", 584);
  }

  lemma NoEquals(n: string, v: string)
    ensures "--" + n + "=" + v != "--help"
  {
    assert ("--" + n + "=" + v)[2 + |n|] == '=';
  }

  lemma BareJoined(a: string, b: string)
    requires IsBare(a) && IsBare(b)
    ensures IsBare(a + "=" + b)
  {
  }

  lemma NoWordLeft(sofar: seq<Arguments.Argument>)
    ensures Arguments.ParametersFrom("", sofar) == Arguments.Given(sofar)
  {
  }

  lemma WithWord(n: string, v: string)
    requires IsParameter(n) && IsBare(v) && |v| < 512 && !Arguments.HasPrefix(v, "--")
    ensures Arguments.ParametersFrom(" --" + n + (" " + v), []) == Arguments.Given([Arguments.Argument(n, v)])
  {
    hide Arguments.NextWord, Arguments.ValidName, Arguments.SplitEquals;
    ParameterIs(n);
    var t, w, rest := " --" + n + (" " + v), "--" + n, " " + v;
    assert n != "help";
    hide IsBare, IsParameter;
    assert t == " " + (w + rest);
    BareWord(w, rest, 584);
    assert v + "" == v && rest == " " + (v + "");
    BareWord(v, "", 512);
    assert w[2..] == n;
    NoSplit(n);
    assert [] + [Arguments.Argument(n, v)] == [Arguments.Argument(n, v)];
    NoWordLeft([Arguments.Argument(n, v)]);
  }

  lemma {:induction false} NoSplit(n: string)
    requires forall k :: 0 <= k < |n| ==> n[k] != '='
    ensures Arguments.SplitEquals(n) == None
    decreases n
  {
    if n != "" { NoSplit(n[1..]); }
  }
}
