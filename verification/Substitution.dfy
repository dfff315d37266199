/** `string.gsub`: the matches of a pattern, one after the other, replaced in a bounded buffer. */
module Substitution {
  import opened Syntax
  import opened Patterns
  import PatternTheory
  import opened Matching

  const BUFFER_LIMIT: nat := 1024 * 1024
  const SIZE_RANGE: nat := 0x1_0000_0000_0000_0000

  // ---- the buffer --------------------------------------------------------------------------

  class Buffer {
    var data: string
    var capacity: nat

    constructor ()
      ensures Valid() && data == ""
    {
      data, capacity := "", 0;
    }

    predicate Valid()
      reads this
    {
      |data| <= capacity <= BUFFER_LIMIT
    }

    /** Room for more bytes: the room doubles, up to the limit, until it is enough. */
    method Reserve(extra: nat) returns (ok: bool)
      requires Valid()
      modifies `capacity
      ensures Valid() && ok == (|data| + extra <= BUFFER_LIMIT)
      ensures ok ==> |data| + extra <= capacity
    {
      if extra > BUFFER_LIMIT - |data| { return false; }
      var required := |data| + extra;
      if required <= capacity { return true; }
      var next := if capacity > 0 then capacity else 128;
      while next < required
        invariant 0 < next && |data| <= required <= BUFFER_LIMIT
        invariant next <= BUFFER_LIMIT
        decreases required - next
      {
        next := if next > BUFFER_LIMIT / 2 then BUFFER_LIMIT else next * 2;
      }
      capacity := next;
      ok := true;
    }

    method Append(s: string, start: nat, length: nat) returns (ok: bool)
      requires Valid() && (|data| + length <= BUFFER_LIMIT ==> start + length <= |s|)
      modifies this
      ensures Valid() && ok == (|old(data)| + length <= BUFFER_LIMIT)
      ensures data == if ok then old(data) + s[start..start + length] else old(data)
    {
      ok := Reserve(length);
      if ok {
        data := data + s[start..start + length];
      }
    }

    method AppendByte(c: char) returns (ok: bool)
      requires Valid()
      modifies this
      ensures Valid() && ok == (|old(data)| + 1 <= BUFFER_LIMIT)
      ensures data == if ok then old(data) + [c] else old(data)
    {
      ok := Append([c], 0, 1);
    }
  }

  // ---- replacements ------------------------------------------------------------------------

  /** What a callback makes of a match. */
  datatype Answer = Keep | Text(text: string) | Raises

  /** A template with `%0` to `%9` in it, or a callback, given by its answer to each call. */
  datatype Replacement = Template(template: string) | Callback(answer: nat -> Answer)

  function MatchText(s: string, f: Found): string
    requires f.Found? && f.start <= f.end <= |s|
  {
    s[f.start..f.end]
  }

  /** The text of a numbered capture; 0 is the whole match. */
  function CaptureText(s: string, f: Found, k: nat): Option<string>
    requires f.Found? && f.start <= f.end <= |s|
  {
    if k == 0 then Some(MatchText(s, f))
    else if k <= |f.captures| && f.captures[k - 1].start <= f.captures[k - 1].end <= |s| then
      Some(s[f.captures[k - 1].start..f.captures[k - 1].end])
    else None
  }

  /** What the escape `%c` stands for. */
  function EscapeText(s: string, f: Found, c: char): Option<string>
    requires f.Found? && f.start <= f.end <= |s|
  {
    if c == '%' then Some("%")
    else if IsDigit(c) then CaptureText(s, f, c as int - '0' as int)
    else None
  }

  /** The template from i on, filled in. */
  function Filled(t: string, i: nat, s: string, f: Found): Option<string>
    requires i <= |t| && f.Found? && f.start <= f.end <= |s|
    decreases |t| - i
  {
    if i == |t| then Some("")
    else if t[i] != '%' then Before([t[i]], Filled(t, i + 1, s, f))
    else if i + 1 == |t| || EscapeText(s, f, t[i + 1]).None? then None
    else Before(EscapeText(s, f, t[i + 1]).value, Filled(t, i + 2, s, f))
  }

  function Before(text: string, rest: Option<string>): Option<string> {
    if rest.None? then None else Some(text + rest.value)
  }

  /** What replaces the k-th match. */
  function ReplacementText(r: Replacement, k: nat, s: string, f: Found): Option<string>
    requires f.Found? && f.start <= f.end <= |s|
  {
    match r
    case Template(t) => Filled(t, 0, s, f)
    case Callback(answer) =>
      match answer(k)
      case Keep => Some(MatchText(s, f))
      case Text(text) => Some(text)
      case Raises => None
  }

  // ---- the whole operation -----------------------------------------------------------------

  datatype Substituted = Substituted(text: string, count: nat) | Failed

  /** The byte after an empty match, which is copied so that the next search makes progress. */
  function Passed(s: string, f: Found): string
    requires f.Found? && f.start <= f.end <= |s|
  {
    if f.start < f.end || f.end == |s| then "" else [s[f.end]]
  }

  function NextPosition(f: Found): nat
    requires f.Found? && f.start <= f.end
  {
    if f.start < f.end then f.end else f.end + 1
  }

  /** The result from a position on, after k replacements. A match that begins before the position
      would make the distance copied wrap around, which no buffer can hold. */
  function GsubFrom(s: string, p: string, r: Replacement, limit: Option<nat>, position: nat, k: nat): (g: Substituted)
    requires position <= |s| + 1
    decreases |s| + 1 - position
  {
    if position > |s| then Substituted("", k)
    else
      var f := if limit.Some? && k >= limit.value then NotFound else Search(s, position, p);
      if f.NotFound? then Substituted(s[position..], k)
      else if f.start < position || ReplacementText(r, k, s, f).None? then Failed
      else
        var text := s[position..f.start] + ReplacementText(r, k, s, f).value + Passed(s, f);
        var rest := GsubFrom(s, p, r, limit, NextPosition(f), k + 1);
        if rest.Failed? then Failed else Substituted(text + rest.text, rest.count)
  }

  // ---- conservation ------------------------------------------------------------------------

  /** The matches that are replaced from a position on. */
  function Matches(s: string, p: string, limit: Option<nat>, position: nat, k: nat): seq<Found>
    requires position <= |s| + 1
    decreases |s| + 1 - position
  {
    if position > |s| then []
    else
      var f := if limit.Some? && k >= limit.value then NotFound else Search(s, position, p);
      if f.NotFound? || f.start < position then [] else [f] + Matches(s, p, limit, NextPosition(f), k + 1)
  }

  /** Matches within s from a position on, each of which ends before the next begins; an empty match
      is not followed by one that begins at the same place. */
  ghost predicate InOrder(s: string, position: nat, ms: seq<Found>) {
    && (forall k :: 0 <= k < |ms| ==> ms[k].Found? && position <= ms[k].start <= ms[k].end <= |s|)
    && (forall j, k :: 0 <= j < k < |ms| ==> ms[j].start < ms[k].start && ms[j].end <= ms[k].start)
  }

  /** The parts of s between the matches, with texts in place of the matches. */
  function Weave(s: string, position: nat, ms: seq<Found>, texts: seq<string>): string
    requires |ms| == |texts| && position <= |s| && InOrder(s, position, ms)
    decreases ms
  {
    if ms == [] then s[position..]
    else
      assert InOrder(s, ms[0].end, ms[1..]);
      s[position..ms[0].start] + texts[0] + Weave(s, ms[0].end, ms[1..], texts[1..])
  }

  /** What replaces each of the matches. */
  function Texts(r: Replacement, k: nat, s: string, ms: seq<Found>): (ts: seq<string>)
    requires forall j :: 0 <= j < |ms| ==> ms[j].Found? && ms[j].start <= ms[j].end <= |s|
    ensures |ts| == |ms|
    decreases ms
  {
    if ms == [] then []
    else
      var t := ReplacementText(r, k, s, ms[0]);
      [if t.None? then "" else t.value] + Texts(r, k + 1, s, ms[1..])
  }

  /** Matches are disjoint and increasing, and there are at most as many as positions are left. */
  lemma {:induction false} MatchesInOrder(s: string, p: string, limit: Option<nat>, position: nat, k: nat)
    requires position <= |s| + 1
    ensures InOrder(s, position, Matches(s, p, limit, position, k))
    ensures |Matches(s, p, limit, position, k)| <= |s| + 1 - position
    ensures limit.Some? ==> k + |Matches(s, p, limit, position, k)| <= if k <= limit.value then limit.value else k
    decreases |s| + 1 - position
  {
    hide Search;
    if position <= |s| {
      var f := if limit.Some? && k >= limit.value then NotFound else Search(s, position, p);
      if f.Found? && f.start >= position {
        SearchBounds(s, position, p);
        MatchesInOrder(s, p, limit, NextPosition(f), k + 1);
      }
    }
  }

  lemma SearchBounds(s: string, position: nat, p: string)
    ensures Search(s, position, p).Found? ==> Search(s, position, p).start <= Search(s, position, p).end <= |s|
    ensures Search(s, position, p).Found? && !Anchored(p) ==> position <= Search(s, position, p).start
  {
  }

  lemma Rest4(a: string, b: string, text: string, rest: string)
    ensures a + b + text + rest == a + (b + text + rest)
  {
  }

  lemma OrderedEarlier(s: string, i: nat, j: nat, ms: seq<Found>)
    requires i <= j && InOrder(s, j, ms)
    ensures InOrder(s, i, ms)
    ensures ms != [] ==> ms[0].Found? && j <= ms[0].start <= ms[0].end <= |s|
  {
  }

  /** Starting the weave earlier only adds the bytes in between. */
  lemma WeaveEarlier(s: string, i: nat, j: nat, ms: seq<Found>, texts: seq<string>)
    requires |ms| == |texts| && i <= j <= |s| && InOrder(s, j, ms)
    ensures InOrder(s, i, ms) && Weave(s, i, ms, texts) == s[i..j] + Weave(s, j, ms, texts)
  {
    hide InOrder;
    OrderedEarlier(s, i, j, ms);
    if ms == [] {
      assert s[i..] == s[i..j] + s[j..];
    } else {
      FirstInOrder(s, j, ms);
      assert s[i..ms[0].start] == s[i..j] + s[j..ms[0].start];
      Rest4(s[i..j], s[j..ms[0].start], texts[0], Weave(s, ms[0].end, ms[1..], texts[1..]));
    }
  }

  /** The result is exactly the parts between the matches with the replacements in between. */
  lemma {:induction false} GsubWeaves(s: string, p: string, r: Replacement, limit: Option<nat>, position: nat, k: nat)
    requires position <= |s| && GsubFrom(s, p, r, limit, position, k).Substituted?
    ensures var ms, g := Matches(s, p, limit, position, k), GsubFrom(s, p, r, limit, position, k);
      && InOrder(s, position, ms)
      && g == Substituted(Weave(s, position, ms, Texts(r, k, s, ms)), k + |ms|)
    decreases |s| + 1 - position
  {
    hide Search, InOrder, ReplacementText;
    MatchesInOrder(s, p, limit, position, k);
    var ms := Matches(s, p, limit, position, k);
    if ms != [] {
      var f := ms[0];
      var next := NextPosition(f);
      var rest := Matches(s, p, limit, next, k + 1);
      assert ms[1..] == rest;
      FirstInOrder(s, position, ms);
      var texts := Texts(r, k, s, ms);
      assert texts[1..] == Texts(r, k + 1, s, rest);
      if next <= |s| {
        GsubWeaves(s, p, r, limit, next, k + 1);
        MatchesInOrder(s, p, limit, next, k + 1);
        WeaveEarlier(s, f.end, next, rest, texts[1..]);
        PassedIs(s, f);
        WeaveFirst(s, position, ms, texts, Passed(s, f), Weave(s, next, rest, texts[1..]));
      } else {
        WeaveLast(s, f, rest);
        WeaveFirst(s, position, ms, texts, Passed(s, f), "");
      }
    }
  }

  lemma FirstInOrder(s: string, position: nat, ms: seq<Found>)
    requires InOrder(s, position, ms) && ms != []
    ensures ms[0].Found? && position <= ms[0].start <= ms[0].end <= |s| && InOrder(s, ms[0].end, ms[1..])
  {
  }

  lemma PassedIs(s: string, f: Found)
    requires f.Found? && f.start <= f.end <= |s| && NextPosition(f) <= |s|
    ensures Passed(s, f) == s[f.end..NextPosition(f)]
  {
  }

  lemma WeaveLast(s: string, f: Found, rest: seq<Found>)
    requires f.Found? && f.start <= f.end <= |s| && NextPosition(f) > |s| && rest == []
    ensures InOrder(s, f.end, rest) && Weave(s, f.end, rest, []) == "" == Passed(s, f) + ""
  {
  }

  lemma WeaveFirst(s: string, position: nat, ms: seq<Found>, texts: seq<string>, passed: string, tail: string)
    requires |ms| == |texts| && position <= |s| && InOrder(s, position, ms) && ms != []
    requires ms[0].Found? && position <= ms[0].start <= ms[0].end <= |s| && InOrder(s, ms[0].end, ms[1..])
    requires Weave(s, ms[0].end, ms[1..], texts[1..]) == passed + tail
    ensures Weave(s, position, ms, texts) == s[position..ms[0].start] + texts[0] + passed + tail
  {
    hide InOrder;
    var head := s[position..ms[0].start] + texts[0];
    assert head + (passed + tail) == head + passed + tail;
  }

  /** Does every match get its own text back? */
  predicate Keeps(r: Replacement, k: nat) {
    match r
    case Template(t) => t == "%0"
    case Callback(answer) => answer(k) == Keep
  }

  lemma KeptText(r: Replacement, k: nat, s: string, f: Found)
    requires Keeps(r, k) && f.Found? && f.start <= f.end <= |s|
    ensures ReplacementText(r, k, s, f) == Some(MatchText(s, f))
  {
    if r.Template? {
      assert Filled("%0", 2, s, f) == Some("");
      assert EscapeText(s, f, '0') == Some(MatchText(s, f));
      assert MatchText(s, f) + "" == MatchText(s, f);
    }
  }

  /** Replacing every match with itself reproduces the subject, for every pattern that is not
      anchored. */
  lemma {:induction false} GsubReproduces(s: string, p: string, r: Replacement, limit: Option<nat>, position: nat, k: nat)
    requires !Anchored(p) && (forall j: nat :: Keeps(r, j)) && position <= |s| + 1
    ensures GsubFrom(s, p, r, limit, position, k).Substituted?
    ensures GsubFrom(s, p, r, limit, position, k).text == if position <= |s| then s[position..] else ""
    decreases |s| + 1 - position
  {
    hide Search, ReplacementText, Anchored;
    if position <= |s| {
      var f := if limit.Some? && k >= limit.value then NotFound else Search(s, position, p);
      SearchBounds(s, position, p);
      if f.Found? {
        assert Keeps(r, k);
        KeptText(r, k, s, f);
        GsubReproduces(s, p, r, limit, NextPosition(f), k + 1);
        Rejoined(s, position, f);
      }
    }
  }

  lemma Rejoined(s: string, position: nat, f: Found)
    requires f.Found? && position <= f.start <= f.end <= |s|
    ensures var rest := if NextPosition(f) <= |s| then s[NextPosition(f)..] else "";
      s[position..f.start] + MatchText(s, f) + Passed(s, f) + rest == s[position..]
  {
    var rest := if NextPosition(f) <= |s| then s[NextPosition(f)..] else "";
    assert Passed(s, f) + rest == s[f.end..];
    assert s[position..f.start] + MatchText(s, f) + (Passed(s, f) + rest) == s[position..];
    assert s[position..f.start] + MatchText(s, f) + Passed(s, f) + rest
        == s[position..f.start] + MatchText(s, f) + (Passed(s, f) + rest);
  }

  /** An anchored pattern matches at the start of the subject however far the search has come, so a
      substitution with one fails exactly if a second search is made after the first match, or the
      first replacement has no text. */
  lemma AnchoredGsub(s: string, p: string, r: Replacement, limit: Option<nat>)
    requires Anchored(p)
    ensures var f := Search(s, 0, p);
      GsubFrom(s, p, r, limit, 0, 0).Failed?
      <==> limit != Some(0) && f.Found?
           && (ReplacementText(r, 0, s, f).None? || (limit != Some(1) && NextPosition(f) <= |s|))
  {
    hide MatchAt, ReplacementText;
    var f := Search(s, 0, p);
    if limit != Some(0) && f.Found? && NextPosition(f) <= |s| {
      assert Search(s, NextPosition(f), p) == f;
      assert GsubFrom(s, p, r, limit, NextPosition(f), 1).Failed? <==> limit != Some(1);
    }
  }

  // ---- the loop ----------------------------------------------------------------------------

  /** Fill a template into the buffer, one byte or capture at a time. */
  method AppendTemplate(buffer: Buffer, t: string, s: string, f: Found) returns (ok: bool)
    requires buffer.Valid() && f.Found? && f.start <= f.end <= |s|
    modifies buffer
    ensures buffer.Valid()
    ensures var text := Filled(t, 0, s, f);
      ok == (text.Some? && |old(buffer.data)| + |text.value| <= BUFFER_LIMIT)
      && (ok ==> buffer.data == old(buffer.data) + text.value)
  {
    hide EscapeText;
    ghost var before := buffer.data;
    var i := 0;
    ok := true;
    Unfilled(before, Filled(t, 0, s, f));
    while ok && i < |t|
      invariant buffer.Valid() && i <= |t|
      invariant if ok then Before(before, Filled(t, 0, s, f)) == Before(buffer.data, Filled(t, i, s, f))
                else Overflows(before, Filled(t, 0, s, f))
      decreases ok, |t| - i
    {
      ghost var so := buffer.data;
      if t[i] != '%' {
        ok := buffer.AppendByte(t[i]);
        Onwards(so, [t[i]], Filled(t, i + 1, s, f));
        i := i + 1;
      } else if i + 1 == |t| {
        ok := false;
      } else {
        var e := EscapeText(s, f, t[i + 1]);
        ok := e.Some?;
        if ok {
          ok := buffer.Append(e.value, 0, |e.value|);
          assert e.value[0..|e.value|] == e.value;
          Onwards(so, e.value, Filled(t, i + 2, s, f));
          i := i + 2;
        }
      }
    }
    if ok {
      Unfilled(buffer.data, Some(""));
    }
  }

  /** There is no text, or it does not fit behind what is there. */
  predicate Overflows(before: string, text: Option<string>) { text.None? || |before| + |text.value| > BUFFER_LIMIT }

  lemma Unfilled(before: string, text: Option<string>)
    ensures Before(before, Before("", text)) == Before(before, text) && Before("", text) == text
    ensures text == Some("") ==> Before(before, text) == Some(before)
  {
    assert text.Some? ==> "" + text.value == text.value;
    assert before + "" == before;
  }

  lemma Onwards(before: string, text: string, rest: Option<string>)
    ensures Before(before, Before(text, rest)) == Before(before + text, rest)
    ensures rest.Some? ==> |before| + |Before(text, rest).value| >= |before| + |text|
  {
    assert rest.Some? ==> before + (text + rest.value) == before + text + rest.value;
  }

  /** Put what replaces a match into the buffer. */
  method AppendReplacement(buffer: Buffer, r: Replacement, k: nat, s: string, f: Found) returns (ok: bool)
    requires buffer.Valid() && f.Found? && f.start <= f.end <= |s|
    modifies buffer
    ensures buffer.Valid()
    ensures ok == !Overflows(old(buffer.data), ReplacementText(r, k, s, f))
    ensures ok ==> buffer.data == old(buffer.data) + ReplacementText(r, k, s, f).value
  {
    if r.Template? {
      ok := AppendTemplate(buffer, r.template, s, f);
    } else {
      var answer := r.answer(k);
      if answer.Raises? { return false; }
      if answer.Keep? {
        ok := buffer.Append(s, f.start, f.end - f.start);
      } else {
        ok := buffer.Append(answer.text, 0, |answer.text|);
        assert answer.text[0..|answer.text|] == answer.text;
      }
    }
  }

  /** The distance from one position to another as an unsigned machine word. */
  function Distance(from: nat, to: nat): nat
    requires from <= SIZE_RANGE
  {
    if from <= to then to - from else to + SIZE_RANGE - from
  }

  /** Replace the matches, at most `limit` of them. It succeeds exactly if every replacement has a
      text, the result fits in the buffer, and memory is granted for the result string. */
  method Gsub(s: string, p: string, r: Replacement, limit: Option<nat>, granted: bool) returns (ok: bool, text: string, count: nat)
    requires |s| < SIZE_RANGE / 2
    ensures var g := GsubFrom(s, p, r, limit, 0, 0);
      ok == (g.Substituted? && |g.text| <= BUFFER_LIMIT && granted) && (ok ==> g == Substituted(text, count))
  {
    hide Search, ReplacementText, Filled, GsubFrom;
    var output := new Buffer();
    var position: nat, replacements: nat := 0, 0;
    ok := true;
    var more := true;
    ghost var whole := GsubFrom(s, p, r, limit, 0, 0);
    BehindNothing(whole);
    while ok && more && position <= |s| && (limit.None? || replacements < limit.value)
      invariant output.Valid() && position <= |s| + 1
      invariant if ok then Behind(output.data, GsubFrom(s, p, r, limit, position, replacements)) == whole else Unfit(whole)
      invariant ok && !more ==> position <= |s| && GsubFrom(s, p, r, limit, position, replacements) == Substituted(s[position..], replacements)
      decreases ok, more, |s| + 1 - position
    {
      ghost var before := output.data;
      SearchBounds(s, position, p);
      var f := Find(s, position, p);
      if f.NotFound? {
        NoMore(s, p, r, limit, position, replacements);
        more := false;
      } else {
        ok := ReplaceOne(output, s, p, r, limit, position, replacements, f);
        if ok {
          position := NextPosition(f);
          replacements := replacements + 1;
        } else {
          UnfitBehind(before, GsubFrom(s, p, r, limit, position, replacements));
        }
      }
    }
    if ok {
      ghost var before := output.data;
      LastPart(s, p, r, limit, position, replacements, more);
      if position <= |s| {
        ok := output.Append(s, position, |s| - position);
        assert s[position..position + (|s| - position)] == s[position..];
      }
      BehindLast(before, if position <= |s| then s[position..] else "", replacements);
    }
    ok, text, count := ok && granted, output.data, replacements;
  }

  /** The gap before a match, its replacement, and the byte after it if it is empty. */
  method ReplaceOne(output: Buffer, s: string, p: string, r: Replacement, limit: Option<nat>, position: nat, k: nat, f: Found)
    returns (ok: bool)
    requires output.Valid() && position <= |s| < SIZE_RANGE / 2 && (limit.Some? ==> k < limit.value)
    requires f == Search(s, position, p) && f.Found? && f.start <= f.end <= |s|
    modifies output
    ensures output.Valid() && (ok ==> position <= f.start)
    ensures var g := GsubFrom(s, p, r, limit, position, k);
      if ok then Behind(output.data, GsubFrom(s, p, r, limit, NextPosition(f), k + 1)) == Behind(old(output.data), g)
      else g.Failed? || |old(output.data)| + |g.text| > BUFFER_LIMIT
  {
    hide Search, ReplacementText;
    ghost var before := output.data;
    ok := output.Append(s, position, Distance(position, f.start));
    ghost var gap := if position <= f.start then s[position..f.start] else "";
    if ok {
      ok := AppendReplacement(output, r, k, s, f);
    }
    ghost var text := ReplacementText(r, k, s, f);
    if ok && f.start == f.end && f.end < |s| {
      ok := output.AppendByte(s[f.end]);
    }
    if ok {
      assert output.data == before + gap + text.value + Passed(s, f);
      BehindMore(before, gap, text.value, Passed(s, f), GsubFrom(s, p, r, limit, NextPosition(f), k + 1));
    }
  }

  /** A result with some text before it. */
  function Behind(before: string, g: Substituted): Substituted {
    if g.Failed? then Failed else Substituted(before + g.text, g.count)
  }

  predicate Unfit(g: Substituted) { g.Failed? || |g.text| > BUFFER_LIMIT }

  lemma BehindNothing(g: Substituted)
    ensures Behind("", g) == g
  {
    assert g.Substituted? ==> "" + g.text == g.text;
  }

  lemma BehindMore(before: string, gap: string, text: string, passed: string, g: Substituted)
    ensures Behind(before + gap + text + passed, g) == Behind(before, Behind(gap + text + passed, g))
  {
    assert g.Substituted? ==> before + gap + text + passed + g.text == before + (gap + text + passed + g.text);
  }

  lemma UnfitBehind(before: string, g: Substituted)
    requires g.Failed? || |before| + |g.text| > BUFFER_LIMIT
    ensures Unfit(Behind(before, g))
  {
  }

  lemma BehindLast(before: string, last: string, count: nat)
    ensures Behind(before, Substituted(last, count)) == Substituted(before + last, count)
    ensures before + "" == before
  {
  }

  lemma NoMore(s: string, p: string, r: Replacement, limit: Option<nat>, position: nat, k: nat)
    requires position <= |s| && Search(s, position, p).NotFound?
    ensures GsubFrom(s, p, r, limit, position, k) == Substituted(s[position..], k)
  {
    hide Search, ReplacementText;
  }

  lemma LastPart(s: string, p: string, r: Replacement, limit: Option<nat>, position: nat, k: nat, more: bool)
    requires position <= |s| + 1
    requires position > |s| || (limit.Some? && k >= limit.value) || !more
    requires !more ==> position <= |s| && GsubFrom(s, p, r, limit, position, k) == Substituted(s[position..], k)
    ensures GsubFrom(s, p, r, limit, position, k) == Substituted(if position <= |s| then s[position..] else "", k)
  {
    hide Search, ReplacementText;
  }
}
