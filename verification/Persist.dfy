/** The `.out` file: how staged records are written, how much room that takes, and how the file is
    read back. */
module Persist {
  import opened Syntax
  import opened Output

  const MAGIC: string := "KAMINOWAKU_BOOK_OUT\t1"
  const NAME_BLOCK: nat := 128

  function FileLimit(limits: Limits): nat { limits.stagedBytes * 3 + 65536 }

  /** How many bytes of a line the reader takes at once, with the end of line. */
  function LineRoom(limits: Limits): nat { limits.valueBlock * 2 + 255 }

  predicate NameByte(c: char) { 'A' <= c <= 'Z' || 'a' <= c <= 'z' || '0' <= c <= '9' || c == '-' || c == '_' }

  predicate NameValid(name: string) { 0 < |name| < NAME_BLOCK && forall k :: 0 <= k < |name| ==> NameByte(name[k]) }

  // ---- hexadecimal -------------------------------------------------------------------------

  function HexDigit(n: int): (c: char)
    requires 0 <= n < 16
    ensures '0' <= c <= '9' || 'a' <= c <= 'f'
  {
    if n < 10 then ('0' as int + n) as char else ('a' as int + n - 10) as char
  }

  function Hex(v: ByteString): (h: string)
    ensures |h| == 2 * |v|
    ensures forall k :: 0 <= k < |h| ==> '0' <= h[k] <= '9' || 'a' <= h[k] <= 'f'
  {
    if v == "" then "" else [HexDigit(v[0] as int / 16), HexDigit(v[0] as int % 16)] + Hex(v[1..])
  }

  function HexValue(c: char): int {
    if '0' <= c <= '9' then c as int - '0' as int
    else if 'a' <= c <= 'f' then 10 + c as int - 'a' as int
    else if 'A' <= c <= 'F' then 10 + c as int - 'A' as int
    else -1
  }

  /** Pairs of digits as bytes. */
  function Unhex(t: string): (v: Option<string>)
    ensures v.Some? ==> 2 * |v.value| == |t|
  {
    if t == "" then Some("")
    else if |t| == 1 || HexValue(t[0]) < 0 || HexValue(t[1]) < 0 then None
    else
      var rest := Unhex(t[2..]);
      if rest.None? then None else Some([(HexValue(t[0]) * 16 + HexValue(t[1])) as char] + rest.value)
  }

  lemma {:induction false} HexReads(v: ByteString)
    ensures Unhex(Hex(v)) == Some(v)
    decreases |v|
  {
    if v != "" {
      HexReads(v[1..]);
      var d := [HexDigit(v[0] as int / 16), HexDigit(v[0] as int % 16)];
      assert Hex(v)[2..] == Hex(v[1..]);
      assert [v[0]] + v[1..] == v;
    }
  }

  // ---- writing -----------------------------------------------------------------------------

  function Line(r: Record): string {
    "FIELD\t" + (ColorName(r.color) + (['\t'] + (r.key + (['\t'] + (Hex(r.value) + ['\n'])))))
  }

  function Lines(rs: seq<Record>): string { if rs == [] then "" else Line(rs[0]) + Lines(rs[1..]) }

  function Header(name: string): string { (MAGIC + ['\n']) + ("BOOK\t" + name + ['\n']) }

  /** The whole file. */
  function Serialized(name: string, rs: seq<Record>): string { Header(name) + Lines(rs) }

  // ---- the size ----------------------------------------------------------------------------

  predicate KeySafe(key: string) {
    0 < |key| < KEY_BLOCK
    && forall k :: 0 <= k < |key| ==> key[k] >= '\U{21}' && key[k] != '\U{7F}' && key[k] != '\t' && key[k] != '\\'
  }

  predicate Writable(r: Record, limits: Limits) { KeySafe(r.key) && |r.value| <= FileLimit(limits) / 2 }

  /** The size the file will have, unless a key could not be written or the file would be too long. */
  method SerializedSize(name: string, rs: seq<Record>, limits: Limits) returns (size: Option<nat>)
    ensures size == if (forall k :: 0 <= k < |rs| ==> Writable(rs[k], limits)) && |Serialized(name, rs)| <= FileLimit(limits)
                    then Some(|Serialized(name, rs)|) else None
  {
    hide Line, Lines, Header, FileLimit, Writable, KeySafe;
    var total: nat := |MAGIC| + 1;
    total := total + 5 + |name| + 1;
    SizeSplit(name, rs);
    var i := 0;
    while i < |rs|
      invariant i <= |rs| && forall k :: 0 <= k < i ==> Writable(rs[k], limits)
      invariant total + |Lines(rs[i..])| == |Serialized(name, rs)|
      invariant i > 0 ==> total <= FileLimit(limits)
    {
      var r := rs[i];
      LinesStep(rs, i);
      WritableIs(r, limits);
      if !KeySafe(r.key) || |r.value| > FileLimit(limits) / 2 { return None; }
      var record := 6 + |ColorName(r.color)| + 1 + |r.key| + 1 + |r.value| * 2 + 1;
      if total > FileLimit(limits) || record > FileLimit(limits) - total { return None; }
      total := total + record;
      i := i + 1;
    }
    assert rs[i..] == [];
    size := if total > FileLimit(limits) then None else Some(total);
  }

  lemma SizeSplit(name: string, rs: seq<Record>)
    ensures |Serialized(name, rs)| == |MAGIC| + 1 + 5 + |name| + 1 + |Lines(rs)| && rs[0..] == rs && Lines([]) == ""
  {
    hide Line;
  }

  lemma LinesStep(rs: seq<Record>, i: nat)
    requires i < |rs|
    ensures |Lines(rs[i..])| == |Line(rs[i])| + |Lines(rs[i + 1..])|
    ensures |Line(rs[i])| == 6 + |ColorName(rs[i].color)| + 1 + |rs[i].key| + 1 + |rs[i].value| * 2 + 1
    ensures i + 1 == |rs| ==> rs[i + 1..] == []
  {
    hide ColorName;
    assert rs[i..][0] == rs[i] && rs[i..][1..] == rs[i + 1..];
  }

  lemma WritableIs(r: Record, limits: Limits)
    ensures Writable(r, limits) == (KeySafe(r.key) && |r.value| <= FileLimit(limits) / 2)
  {
  }

  lemma {:induction false} LinesBounded(rs: seq<Record>)
    ensures |Lines(rs)| <= 17 * |rs| + 2 * Bytes(rs)
    decreases rs
  {
    if rs != [] {
      LinesBounded(rs[1..]);
      BytesSplit(rs);
      ColorReads(rs[0].color);
    }
  }

  lemma {:induction false} BytesSplit(rs: seq<Record>)
    requires rs != []
    ensures Bytes(rs) == |rs[0].key| + |rs[0].value| + Bytes(rs[1..])
    decreases rs
  {
    var front := rs[..|rs| - 1];
    if front == [] {
      assert rs[1..] == [];
    } else {
      BytesSplit(front);
      assert rs[1..][..|rs| - 2] == front[1..];
    }
  }

  /** Whatever can be staged passes the size check and fits with room to spare, whatever the two
      block sizes are. */
  lemma StagedFits(name: string, rs: seq<Record>, limits: Limits)
    requires NameValid(name) && Stageable(rs, limits)
    ensures forall k :: 0 <= k < |rs| ==> Writable(rs[k], limits)
    ensures |Serialized(name, rs)| <= 2 * limits.stagedBytes + 4608 <= FileLimit(limits)
  {
    LinesBounded(rs);
    forall k | 0 <= k < |rs| ensures Writable(rs[k], limits) {
      assert RecordValid(rs[k], limits);
      PartOfBytes(rs, k);
    }
  }

  lemma {:induction false} PartOfBytes(rs: seq<Record>, k: nat)
    requires k < |rs|
    ensures |rs[k].key| + |rs[k].value| <= Bytes(rs)
    decreases rs
  {
    if k < |rs| - 1 {
      PartOfBytes(rs[..|rs| - 1], k);
    }
  }

  // ---- reading -----------------------------------------------------------------------------

  datatype Artifact = Artifact(name: string, records: seq<Record>)

  /** How many bytes one read takes: a line with its end, or as many as there is room for. */
  function TakenFrom(t: string, room: nat): (n: nat)
    ensures n <= |t| && n <= room && (t != "" && room > 0 ==> n > 0)
  {
    if t == "" || room == 0 then 0 else if t[0] == '\n' then 1 else 1 + TakenFrom(t[1..], room - 1)
  }

  /** A byte string as C sees it: up to the first zero byte. */
  function CString(t: string): (c: string)
    ensures |c| <= |t|
  {
    if t == "" || t[0] == '\0' then "" else [t[0]] + CString(t[1..])
  }

  /** The text of the line at the head of t: it must have an end, or be all there is. */
  function LineText(t: string, room: nat): (l: Option<string>)
    requires t != ""
  {
    var n := TakenFrom(t, room);
    var c := CString(t[..n]);
    if c != "" && c[|c| - 1] == '\n' then Some(c[..|c| - 1])
    else if n == |t| && n < room && (n > 0 ==> t[n - 1] != '\n') then Some(c)
    else None
  }

  /** What is before and after the first tab. */
  function SplitTab(t: string): (r: Option<(string, string)>)
    ensures r.Some? ==> |r.value.0| + 1 + |r.value.1| == |t|
  {
    if t == "" then None
    else if t[0] == '\t' then Some(("", t[1..]))
    else
      var r := SplitTab(t[1..]);
      if r.None? then None else Some(([t[0]] + r.value.0, r.value.1))
  }

  predicate HasPrefix(t: string, p: string) { |p| <= |t| && t[..|p|] == p }

  /** The name in the second line. */
  function ReadName(line: string, base: string): Option<string> {
    if !HasPrefix(line, "BOOK\t") then None
    else
      var name := if |line| - 5 < NAME_BLOCK then line[5..] else line[5..5 + NAME_BLOCK - 1];
      if NameValid(name) && base == name + ".out" then Some(name) else None
  }

  /** The record in a later line. */
  function ReadField(line: ByteString, limits: Limits): Option<Record> {
    if !HasPrefix(line, "FIELD\t") then None
    else
      var a := SplitTab(line[6..]);
      if a.None? then None
      else
        var b := SplitTab(a.value.1);
        if b.None? || ParseColor(a.value.0).None? || !KeySafe(b.value.0) then None
        else
          var v := Unhex(b.value.1);
          if v.None? || |v.value| >= limits.valueBlock then None
          else
            SplitBytes(line[6..]);
            SplitBytes(a.value.1);
            UnhexBytes(b.value.1);
            Some(Record(b.value.0, v.value, ParseColor(a.value.0).value))
  }

  lemma {:induction false} SplitBytes(t: ByteString)
    ensures SplitTab(t).Some? ==> IsBytes(SplitTab(t).value.0) && IsBytes(SplitTab(t).value.1)
    decreases |t|
  {
    if t != "" && t[0] != '\t' {
      SplitBytes(t[1..]);
    }
  }

  predicate IsBytes(t: string) { forall k :: 0 <= k < |t| ==> t[k] < '\U{100}' }

  lemma {:induction false} UnhexBytes(t: string)
    ensures Unhex(t).Some? ==> IsBytes(Unhex(t).value)
    decreases |t|
  {
    if |t| > 1 {
      UnhexBytes(t[2..]);
    }
  }

  lemma {:induction false} CStringBytes(t: ByteString)
    ensures IsBytes(CString(t))
    decreases |t|
  {
    if t != "" && t[0] != '\0' {
      CStringBytes(t[1..]);
    }
  }

  lemma LineBytes(t: ByteString, room: nat)
    requires t != "" && LineText(t, room).Some?
    ensures IsBytes(LineText(t, room).value)
  {
    CStringBytes(t[..TakenFrom(t, room)]);
  }

  /** Read what is left of a file after n lines. */
  function ReadFrom(t: ByteString, n: nat, base: string, limits: Limits, so: Artifact): Option<Artifact>
    decreases |t|
  {
    if t == "" then (if n < 2 || so.name == "" then None else Some(so))
    else
      var line := LineText(t, LineRoom(limits));
      if line.None? then None
      else
        LineBytes(t, LineRoom(limits));
        var rest := t[TakenFrom(t, LineRoom(limits))..];
        if n == 0 then (if line.value == MAGIC then ReadFrom(rest, 1, base, limits, so) else None)
        else if n == 1 then
          var name := ReadName(line.value, base);
          if name.None? then None else ReadFrom(rest, 2, base, limits, so.(name := name.value))
        else
          var r := ReadField(line.value, limits);
          if r.None? || |so.records| >= RECORD_LIMIT then None
          else ReadFrom(rest, n + 1, base, limits, so.(records := so.records + [r.value]))
  }

  /** Read a whole file whose name ends in `base`. */
  function ReadOut(content: ByteString, base: string, limits: Limits): Option<Artifact> {
    if |content| > FileLimit(limits) then None else ReadFrom(content, 0, base, limits, Artifact("", []))
  }

  // ---- reading back ------------------------------------------------------------------------

  predicate NoLineEnd(t: string) { forall k :: 0 <= k < |t| ==> t[k] != '\n' && t[k] != '\0' }

  lemma {:induction false} TakesLine(line: string, rest: string, room: nat)
    requires NoLineEnd(line) && |line| < room
    ensures TakenFrom(line + ['\n'] + rest, room) == |line| + 1
    decreases line
  {
    var t := line + ['\n'] + rest;
    if line != "" {
      TakesLine(line[1..], rest, room - 1);
      assert t[1..] == line[1..] + ['\n'] + rest;
    }
  }

  lemma {:induction false} WholeCString(t: string)
    requires forall k :: 0 <= k < |t| ==> t[k] != '\0'
    ensures CString(t) == t
    decreases t
  {
    if t != "" {
      WholeCString(t[1..]);
      assert [t[0]] + t[1..] == t;
    }
  }

  lemma LineReads(line: string, rest: string, room: nat)
    requires NoLineEnd(line) && |line| < room
    ensures LineText(line + ['\n'] + rest, room) == Some(line)
    ensures (line + ['\n'] + rest)[TakenFrom(line + ['\n'] + rest, room)..] == rest
  {
    var t := line + ['\n'] + rest;
    TakesLine(line, rest, room);
    assert t[..|line| + 1] == line + ['\n'];
    WholeCString(line + ['\n']);
    assert (line + ['\n'])[..|line|] == line;
  }

  lemma {:induction false} SplitsAt(a: string, b: string)
    requires forall k :: 0 <= k < |a| ==> a[k] != '\t'
    ensures SplitTab(a + (['\t'] + b)) == Some((a, b))
    decreases a
  {
    var t := a + (['\t'] + b);
    if a != "" {
      SplitsAt(a[1..], b);
      assert t[1..] == a[1..] + (['\t'] + b);
      assert [a[0]] + a[1..] == a;
    } else {
      assert t == ['\t'] + b && t[1..] == b;
    }
  }

  function FieldText(r: Record): string {
    "FIELD\t" + (ColorName(r.color) + (['\t'] + (r.key + (['\t'] + Hex(r.value)))))
  }

  lemma LineIsText(r: Record)
    ensures Line(r) == FieldText(r) + ['\n']
  {
  }

  lemma FieldReads(r: Record, limits: Limits)
    requires RecordValid(r, limits)
    ensures IsBytes(FieldText(r)) && ReadField(FieldText(r), limits) == Some(r)
    ensures NoLineEnd(FieldText(r)) && |FieldText(r)| < LineRoom(limits)
  {
    hide Hex, ColorName, ParseColor, Unhex, SplitTab;
    ColorReads(r.color);
    HexReads(r.value);
    SplitsAt(ColorName(r.color), r.key + (['\t'] + Hex(r.value)));
    SplitsAt(r.key, Hex(r.value));
    assert FieldText(r)[6..] == ColorName(r.color) + (['\t'] + (r.key + (['\t'] + Hex(r.value))));
    assert FieldText(r)[..6] == "FIELD\t";
  }

  /** The records of a file, in the order they were staged. */
  lemma {:induction false} LinesRead(rs: seq<Record>, n: nat, base: string, limits: Limits, so: Artifact)
    requires (forall k :: 0 <= k < |rs| ==> RecordValid(rs[k], limits)) && n >= 2 && so.name != ""
    requires |so.records| + |rs| <= RECORD_LIMIT
    ensures IsBytes(Lines(rs))
    ensures ReadFrom(Lines(rs), n, base, limits, so) == Some(so.(records := so.records + rs))
    decreases rs
  {
    hide Line, FieldText, ReadField, LineText, TakenFrom, RecordValid;
    if rs == [] {
      assert so.records + [] == so.records;
    } else {
      var r := rs[0];
      var more := so.(records := so.records + [r]);
      FieldReads(r, limits);
      LineIsText(r);
      LinesRead(rs[1..], n + 1, base, limits, more);
      LineReads(FieldText(r), Lines(rs[1..]), LineRoom(limits));
      assert so.records + [r] + rs[1..] == so.records + rs;
    }
  }

  lemma NameReads(name: string)
    requires NameValid(name)
    ensures ReadName("BOOK\t" + name, name + ".out") == Some(name)
    ensures IsBytes("BOOK\t" + name) && NoLineEnd("BOOK\t" + name)
  {
    var line := "BOOK\t" + name;
    assert line[5..] == name && line[..5] == "BOOK\t";
  }

  lemma FirstLineReads(second: ByteString, base: string, limits: Limits, so: Artifact)
    requires IsBytes(MAGIC + ['\n'] + second)
    ensures ReadFrom(MAGIC + ['\n'] + second, 0, base, limits, so) == ReadFrom(second, 1, base, limits, so)
  {
    hide LineText, TakenFrom, ReadName, ReadField;
    LineReads(MAGIC, second, LineRoom(limits));
  }

  lemma SecondLineReads(name: string, rest: ByteString, limits: Limits, so: Artifact)
    requires NameValid(name) && IsBytes(("BOOK\t" + name) + ['\n'] + rest)
    ensures ReadFrom(("BOOK\t" + name) + ['\n'] + rest, 1, name + ".out", limits, so)
         == ReadFrom(rest, 2, name + ".out", limits, so.(name := name))
  {
    hide LineText, TakenFrom, ReadName, ReadField, NameValid;
    NameReads(name);
    NameShort(name);
    LineReads("BOOK\t" + name, rest, LineRoom(limits));
  }

  lemma NameShort(name: string)
    requires NameValid(name)
    ensures 0 < |name| < NAME_BLOCK
  {
  }

  /** A file written from a stage is read back as exactly the name and the records that were staged,
      in order: every line fits the reader's buffer and the file is within its limit. */
  lemma OutRoundTrip(name: string, rs: seq<Record>, limits: Limits)
    requires NameValid(name) && Stageable(rs, limits)
    ensures IsBytes(Serialized(name, rs))
    ensures ReadOut(Serialized(name, rs), name + ".out", limits) == Some(Artifact(name, rs))
  {
    hide ReadName, LineText, TakenFrom, RecordValid, ReadField, Lines, ReadFrom, NameValid, FileLimit;
    var lines := Lines(rs);
    StagedFits(name, rs, limits);
    NameShort(name);
    LinesRead(rs, 2, name + ".out", limits, Artifact(name, []));
    NameReads(name);
    var second := ("BOOK\t" + name) + ['\n'] + lines;
    assert Serialized(name, rs) == MAGIC + ['\n'] + second;
    FirstLineReads(second, name + ".out", limits, Artifact("", []));
    SecondLineReads(name, lines, limits, Artifact("", []));
    assert [] + rs == rs;
  }

  // ---- the reader --------------------------------------------------------------------------

  method TakeLine(t: string, start: nat, room: nat) returns (end: nat)
    requires start <= |t|
    ensures start <= end <= |t| && end - start == TakenFrom(t[start..], room)
  {
    end := start;
    var more := true;
    while more && end < |t| && end - start < room
      invariant start <= end <= |t| && end - start <= room
      invariant TakenFrom(t[start..], room) == end - start + if more then TakenFrom(t[end..], room - (end - start)) else 0
      decreases more, |t| - end
    {
      assert t[end..][1..] == t[end + 1..];
      if t[end] == '\n' {
        more := false;
      }
      end := end + 1;
    }
  }

  /** Read a whole file line by line, or nothing at all. */
  method ParseFile(content: ByteString, base: string, limits: Limits) returns (r: Option<Artifact>)
    ensures r == ReadOut(content, base, limits)
  {
    hide ReadName, ReadField, LineText, TakenFrom;
    if |content| > FileLimit(limits) { return None; }
    var position, lines := 0, 0;
    var so := Artifact("", []);
    assert content[0..] == content;
    while position < |content|
      invariant 0 <= position <= |content| && 0 <= lines
      invariant ReadFrom(content[position..], lines, base, limits, so) == ReadOut(content, base, limits)
    {
      var t: ByteString := content[position..];
      var end := TakeLine(content, position, LineRoom(limits));
      TakesSome(t, LineRoom(limits));
      var line := LineText(t, LineRoom(limits));
      if line.None? { return None; }
      LineBytes(t, LineRoom(limits));
      assert t[TakenFrom(t, LineRoom(limits))..] == content[end..];
      if lines == 0 {
        if line.value != MAGIC { return None; }
      } else if lines == 1 {
        var name := ReadName(line.value, base);
        if name.None? { return None; }
        so := so.(name := name.value);
      } else {
        var field := ReadField(line.value, limits);
        if field.None? || |so.records| >= RECORD_LIMIT { return None; }
        so := so.(records := so.records + [field.value]);
      }
      position, lines := end, lines + 1;
    }
    if lines < 2 || so.name == "" { return None; }
    r := Some(so);
  }

  lemma TakesSome(t: string, room: nat)
    requires t != "" && room > 0
    ensures TakenFrom(t, room) > 0
  {
  }
}
