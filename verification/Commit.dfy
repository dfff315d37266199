/** Replacing a Book's `.out` file: everything is written to a temporary file first, which takes the
    final name in one step. */
module Commit {
  import opened Syntax
  import opened Output
  import opened Persist

  type Disk = map<string, string>

  const TEMP_ATTEMPTS: nat := 100

  /** A directory, and all the states it has been in. */
  class Files {
    var disk: Disk
    ghost var history: seq<Disk>

    constructor (disk: Disk)
      ensures this.disk == disk && history == []
    {
      this.disk, history := disk, [];
    }

    /** Make an empty file under a name that is not in use. */
    method Create(path: string) returns (ok: bool)
      modifies this
      ensures ok == (path !in old(disk))
      ensures disk == if ok then old(disk)[path := ""] else old(disk)
      ensures history == old(history) + if ok then [disk] else []
    {
      ok := path !in disk;
      if ok {
        disk := disk[path := ""];
        history := history + [disk];
      }
    }

    /** Write to the end of a file; a write that fails may have written a part. */
    method Write(path: string, text: string, written: nat) returns (ok: bool)
      requires path in disk
      modifies this
      ensures ok == (written >= |text|)
      ensures disk == old(disk)[path := old(disk)[path] + if ok then text else text[..written]]
      ensures history == old(history) + [disk]
    {
      ok := written >= |text|;
      disk := disk[path := disk[path] + if ok then text else text[..written]];
      history := history + [disk];
    }

    /** Give a file another name in one step, replacing what had that name. */
    method Rename(path: string, to: string, allowed: bool) returns (ok: bool)
      requires path in disk
      modifies this
      ensures ok == allowed
      ensures disk == if ok then (old(disk) - {path})[to := old(disk)[path]] else old(disk)
      ensures history == old(history) + if ok then [disk] else []
    {
      ok := allowed;
      if ok {
        disk := (disk - {path})[to := disk[path]];
        history := history + [disk];
      }
    }

    method Unlink(path: string, allowed: bool)
      modifies this
      ensures disk == if allowed then old(disk) - {path} else old(disk)
      ensures history == old(history) + if allowed then [disk] else []
    {
      if allowed {
        disk := disk - {path};
        history := history + [disk];
      }
    }
  }

  /** What the disk does: whether the k-th attempt to open a temporary file can succeed at all, how
      much of the k-th write succeeds, and whether closing (with the sync before it), renaming and
      unlinking do. */
  datatype Luck = Luck(opens: nat -> bool, written: nat -> nat, closes: bool, renames: bool, unlinks: bool)

  /** The file under a name, if there is one. */
  function At(d: Disk, path: string): Option<string> { if path in d then Some(d[path]) else None }

  /** All names but the temporary one are as they were. */
  ghost predicate OnlyTemp(before: Disk, after: Disk, temp: string) { forall p :: p != temp ==> At(after, p) == At(before, p) }

  /** Temporary names are told apart by a tag for each attempt. */
  function TempName(final: string, tag: string): string { final + ".tmp." + tag }

  lemma TempIsOther(final: string, tag: string)
    ensures TempName(final, tag) != final
  {
    assert |TempName(final, tag)| > |final|;
  }

  /** The first temporary name that is not in use, unless an attempt fails for another reason first. */
  function FirstTemp(d: Disk, final: string, tags: nat -> string, opens: nat -> bool, k: nat): (t: Option<string>)
    ensures t.Some? ==> t.value != final && t.value !in d
    decreases TEMP_ATTEMPTS - k
  {
    TempIsOther(final, tags(k));
    if k >= TEMP_ATTEMPTS || !opens(k) then None
    else if TempName(final, tags(k)) !in d then Some(TempName(final, tags(k)))
    else FirstTemp(d, final, tags, opens, k + 1)
  }

  method OpenTemp(files: Files, final: string, tags: nat -> string, opens: nat -> bool) returns (temp: Option<string>)
    modifies files
    ensures temp == FirstTemp(old(files.disk), final, tags, opens, 0)
    ensures files.disk == if temp.Some? then old(files.disk)[temp.value := ""] else old(files.disk)
    ensures files.history == old(files.history) + if temp.Some? then [files.disk] else []
  {
    var attempt: nat := 0;
    while attempt < TEMP_ATTEMPTS
      invariant files.disk == old(files.disk) && files.history == old(files.history)
      invariant FirstTemp(files.disk, final, tags, opens, 0) == FirstTemp(files.disk, final, tags, opens, attempt)
    {
      if !opens(attempt) { return None; }
      var path := TempName(final, tags(attempt));
      var ok := files.Create(path);
      if ok { return Some(path); }
      attempt := attempt + 1;
    }
    temp := None;
  }

  /** The pieces a file is written in. */
  function HeaderPieces(name: string): seq<string> { [MAGIC + ['\n'], "BOOK\t", name, ['\n']] }

  /** The digits of a value are written as many at a time as the buffer for them holds. */
  const HEX_BLOCK: nat := 1024

  function HexPieces(v: ByteString): seq<string> {
    if v == "" then []
    else if |v| <= HEX_BLOCK / 2 then [Hex(v)]
    else [Hex(v[..HEX_BLOCK / 2])] + HexPieces(v[HEX_BLOCK / 2..])
  }

  function LabelPieces(r: Record): seq<string> { ["FIELD\t", ColorName(r.color), ['\t'], r.key, ['\t']] }

  function RecordPieces(r: Record): seq<string> { LabelPieces(r) + (HexPieces(r.value) + [['\n']]) }

  function Joined(ps: seq<string>): string { if ps == [] then "" else ps[0] + Joined(ps[1..]) }

  lemma HeaderJoins(name: string)
    ensures Joined(HeaderPieces(name)) == Header(name)
  {
    JoinedFrom(MAGIC + ['\n'], ["BOOK\t", name, ['\n']]);
    JoinedFrom("BOOK\t", [name, ['\n']]);
    JoinedFrom(name, [['\n']]);
    JoinedFrom(['\n'], []);
    assert HeaderPieces(name) == [MAGIC + ['\n']] + ["BOOK\t", name, ['\n']];
    assert ["BOOK\t", name, ['\n']] == ["BOOK\t"] + [name, ['\n']];
    assert [name, ['\n']] == [name] + [['\n']];
    assert [['\n']] == [['\n']] + [];
    assert ['\n'] + "" == ['\n'];
    assert "BOOK\t" + (name + ['\n']) == "BOOK\t" + name + ['\n'];
  }

  lemma {:induction false} HexSum(a: ByteString, b: ByteString)
    ensures Hex(a + b) == Hex(a) + Hex(b)
    decreases |a|
  {
    if a == "" {
      assert a + b == b;
    } else {
      HexSum(a[1..], b);
      assert (a + b)[1..] == a[1..] + b;
    }
  }

  lemma {:induction false} HexJoins(v: ByteString)
    ensures Joined(HexPieces(v)) == Hex(v)
    decreases |v|
  {
    hide Hex;
    if v == "" {
    } else if |v| <= HEX_BLOCK / 2 {
      JoinedFrom(Hex(v), []);
      assert [Hex(v)] + [] == [Hex(v)] && Hex(v) + "" == Hex(v);
    } else {
      var a, b := v[..HEX_BLOCK / 2], v[HEX_BLOCK / 2..];
      HexJoins(b);
      HexSum(a, b);
      assert a + b == v;
      JoinedFrom(Hex(a), HexPieces(b));
    }
  }

  lemma {:induction false} JoinedSum(a: seq<string>, b: seq<string>)
    ensures Joined(a + b) == Joined(a) + Joined(b)
    decreases a
  {
    if a == [] {
      assert a + b == b && Joined(a) + Joined(b) == Joined(b);
    } else {
      JoinedSum(a[1..], b);
      assert (a + b)[1..] == a[1..] + b;
      assert a[0] + (Joined(a[1..]) + Joined(b)) == a[0] + Joined(a[1..]) + Joined(b);
    }
  }

  lemma RecordJoins(r: Record)
    ensures Joined(RecordPieces(r)) == Line(r)
  {
    hide Hex, ColorName, HexPieces, Joined;
    var c, h := ColorName(r.color), Hex(r.value);
    LabelJoins(r);
    HexJoins(r.value);
    JoinedSum(LabelPieces(r), HexPieces(r.value) + [['\n']]);
    JoinedSum(HexPieces(r.value), [['\n']]);
    JoinedFrom(['\n'], []);
    JoinedNone();
    assert [['\n']] + [] == [['\n']] && ['\n'] + "" == ['\n'];
    Regrouped("FIELD\t", c, ['\t'], r.key, h + ['\n']);
  }

  lemma Regrouped(a: string, b: string, t: string, k: string, h: string)
    ensures a + (b + (t + (k + t))) + h == a + (b + (t + (k + (t + h))))
  {
  }

  lemma JoinedNone()
    ensures Joined([]) == ""
  {
  }

  lemma LabelJoins(r: Record)
    ensures Joined(LabelPieces(r)) == "FIELD\t" + (ColorName(r.color) + (['\t'] + (r.key + ['\t'])))
  {
    hide ColorName;
    var c := ColorName(r.color);
    JoinedFrom("FIELD\t", [c, ['\t'], r.key, ['\t']]);
    JoinedFrom(c, [['\t'], r.key, ['\t']]);
    JoinedFrom(['\t'], [r.key, ['\t']]);
    JoinedFrom(r.key, [['\t']]);
    JoinedFrom(['\t'], []);
    assert LabelPieces(r) == ["FIELD\t"] + [c, ['\t'], r.key, ['\t']];
    assert [c, ['\t'], r.key, ['\t']] == [c] + [['\t'], r.key, ['\t']];
    assert [['\t'], r.key, ['\t']] == [['\t']] + [r.key, ['\t']];
    assert [r.key, ['\t']] == [r.key] + [['\t']];
    assert [['\t']] == [['\t']] + [];
    assert ['\t'] + "" == ['\t'];
  }

  lemma JoinedFrom(p: string, ps: seq<string>)
    ensures Joined([p] + ps) == p + Joined(ps)
  {
    assert ([p] + ps)[1..] == ps;
  }

  function RecordsPieces(rs: seq<Record>): seq<string> {
    if rs == [] then [] else RecordPieces(rs[0]) + RecordsPieces(rs[1..])
  }

  /** Every piece is written completely, by the writes from the given one on. */
  predicate AllWritten(ps: seq<string>, written: nat -> nat, from: nat) {
    forall k :: 0 <= k < |ps| ==> written(from + k) >= |ps[k]|
  }

  lemma WrittenSplit(a: seq<string>, b: seq<string>, written: nat -> nat, from: nat)
    ensures AllWritten(a + b, written, from) == (AllWritten(a, written, from) && AllWritten(b, written, from + |a|))
  {
    if AllWritten(a + b, written, from) {
      forall k | 0 <= k < |a| ensures written(from + k) >= |a[k]| {
        assert (a + b)[k] == a[k];
      }
      forall k | 0 <= k < |b| ensures written(from + |a| + k) >= |b[k]| {
        assert (a + b)[|a| + k] == b[k];
      }
    }
  }

  /** Write some pieces one after the other, until one fails. */
  method WritePieces(files: Files, temp: string, ps: seq<string>, luck: Luck, writes: nat) returns (ok: bool, writes': nat)
    requires temp in files.disk
    modifies files
    ensures temp in files.disk && OnlyTemp(old(files.disk), files.disk, temp)
    ensures ok == AllWritten(ps, luck.written, writes)
    ensures ok ==> files.disk[temp] == old(files.disk)[temp] + Joined(ps) && writes' == writes + |ps|
    ensures |old(files.history)| <= |files.history| && files.history[..|old(files.history)|] == old(files.history)
    ensures forall k :: |old(files.history)| <= k < |files.history| ==> OnlyTemp(old(files.disk), files.history[k], temp)
  {
    ok, writes' := true, writes;
    var i := 0;
    assert ps[0..] == ps;
    while ok && i < |ps|
      invariant i <= |ps| && temp in files.disk && OnlyTemp(old(files.disk), files.disk, temp)
      invariant writes' == writes + i && (!ok ==> !AllWritten(ps, luck.written, writes))
      invariant ok ==> forall k :: 0 <= k < i ==> luck.written(writes + k) >= |ps[k]|
      invariant ok ==> files.disk[temp] + Joined(ps[i..]) == old(files.disk)[temp] + Joined(ps)
      invariant |old(files.history)| <= |files.history| && files.history[..|old(files.history)|] == old(files.history)
      invariant forall k :: |old(files.history)| <= k < |files.history| ==> OnlyTemp(old(files.disk), files.history[k], temp)
      decreases ok, |ps| - i
    {
      ghost var text := files.disk[temp];
      ok := files.Write(temp, ps[i], luck.written(writes'));
      writes' := writes' + 1;
      assert ps[i..][1..] == ps[i + 1..];
      assert text + (ps[i] + Joined(ps[i + 1..])) == text + ps[i] + Joined(ps[i + 1..]);
      i := i + 1;
    }
  }

  lemma OnlyTempTrans(a: Disk, b: Disk, c: Disk, temp: string)
    requires OnlyTemp(a, b, temp) && OnlyTemp(b, c, temp)
    ensures OnlyTemp(a, c, temp)
  {
  }

  /** Every state from `since` on differs from `before` in the temporary file at most. */
  ghost predicate Quiet(history: seq<Disk>, since: nat, before: Disk, temp: string) {
    since <= |history| && forall k :: since <= k < |history| ==> OnlyTemp(before, history[k], temp)
  }

  lemma QuietOn(h: seq<Disk>, h': seq<Disk>, since: nat, before: Disk, now: Disk, temp: string)
    requires Quiet(h, since, before, temp) && OnlyTemp(before, now, temp)
    requires |h| <= |h'| && h'[..|h|] == h && forall k :: |h| <= k < |h'| ==> OnlyTemp(now, h'[k], temp)
    ensures Quiet(h', since, before, temp)
  {
    hide OnlyTemp;
    forall k | since <= k < |h'| ensures OnlyTemp(before, h'[k], temp) {
      if k < |h| {
        assert h'[k] == h[k];
      } else {
        OnlyTempTrans(before, now, h'[k], temp);
      }
    }
  }

  /** The whole file can be written. */
  predicate WholeWritten(name: string, rs: seq<Record>, luck: Luck) {
    AllWritten(HeaderPieces(name) + RecordsPieces(rs), luck.written, 0)
  }

  /** Write the whole file under the temporary name. */
  method WriteAll(files: Files, temp: string, name: string, rs: seq<Record>, luck: Luck) returns (ok: bool)
    requires temp in files.disk && files.disk[temp] == ""
    modifies files
    ensures temp in files.disk && OnlyTemp(old(files.disk), files.disk, temp)
    ensures ok == WholeWritten(name, rs, luck) && (ok ==> files.disk[temp] == Serialized(name, rs))
    ensures Quiet(files.history, |old(files.history)|, old(files.disk), temp)
    ensures files.history[..|old(files.history)|] == old(files.history)
  {
    hide Line, Header, OnlyTemp, HeaderPieces, RecordPieces, Joined, AllWritten;
    ghost var before, since := files.disk, |files.history|;
    Still(before, temp);
    var writes;
    ok, writes := WritePieces(files, temp, HeaderPieces(name), luck, 0);
    HeaderJoins(name);
    WrittenSplit(HeaderPieces(name), RecordsPieces(rs), luck.written, 0);
    assert "" + Header(name) == Header(name);
    assert rs[0..] == rs;
    var i := 0;
    while ok && i < |rs|
      invariant i <= |rs| && temp in files.disk && OnlyTemp(before, files.disk, temp)
      invariant WholeWritten(name, rs, luck) == (ok && AllWritten(RecordsPieces(rs[i..]), luck.written, writes))
      invariant ok ==> files.disk[temp] + Lines(rs[i..]) == Serialized(name, rs)
      invariant Quiet(files.history, since, before, temp) && files.history[..since] == old(files.history)
      decreases ok, |rs| - i
    {
      ghost var h, now := files.history, files.disk;
      assert rs[i..][0] == rs[i] && rs[i..][1..] == rs[i + 1..];
      WrittenSplit(RecordPieces(rs[i]), RecordsPieces(rs[i + 1..]), luck.written, writes);
      ok, writes := WritePieces(files, temp, RecordPieces(rs[i]), luck, writes);
      QuietOn(h, files.history, since, before, now, temp);
      OnlyTempTrans(before, now, files.disk, temp);
      RecordJoins(rs[i]);
      assert now[temp] + (Line(rs[i]) + Lines(rs[i + 1..])) == now[temp] + Line(rs[i]) + Lines(rs[i + 1..]);
      assert files.history[..since] == files.history[..|h|][..since];
      i := i + 1;
    }
    if ok {
      assert rs[i..] == [] && files.disk[temp] + "" == files.disk[temp];
      NothingWritten(luck.written, writes);
    }
  }

  lemma NothingWritten(written: nat -> nat, from: nat)
    ensures AllWritten([], written, from)
  {
  }

  lemma Still(d: Disk, temp: string)
    ensures OnlyTemp(d, d, temp)
  {
  }

  /** Before and after each state, the file under the final name is the old one or the complete new one. */
  ghost predicate OldOrNew(d: Disk, before: Disk, final: string, whole: string) {
    At(d, final) == At(before, final) || At(d, final) == Some(whole)
  }

  /** Success replaces the final file and changes nothing else; failure changes nothing, but may
      leave the temporary file if that cannot be removed. */
  ghost predicate Committed(before: Disk, after: Disk, ok: bool, final: string, temp: Option<string>, whole: string, unlinks: bool) {
    if ok then after == before[final := whole]
    else if temp.None? || unlinks then after == before
    else OnlyTemp(before, after, temp.value)
  }

  /** Fill the temporary file and give it the final name. */
  method Replace(files: Files, final: string, temp: string, name: string, rs: seq<Record>, luck: Luck) returns (ok: bool)
    requires temp in files.disk && files.disk[temp] == "" && temp != final
    modifies files
    ensures ok == (WholeWritten(name, rs, luck) && luck.closes && luck.renames)
    ensures Committed(old(files.disk) - {temp}, files.disk, ok, final, Some(temp), Serialized(name, rs), luck.unlinks)
    ensures |old(files.history)| <= |files.history| && files.history[..|old(files.history)|] == old(files.history)
    ensures forall k :: |old(files.history)| <= k < |files.history| ==>
      OldOrNew(files.history[k], old(files.disk), final, Serialized(name, rs))
  {
    hide Serialized, OnlyTemp, OldOrNew, Committed, At, Quiet, WholeWritten;
    ghost var before, since, whole := files.disk, |files.history|, Serialized(name, rs);
    ok := WriteAll(files, temp, name, rs, luck);
    QuietIsOld(files.history, since, before, temp, final, whole);
    ghost var written, h := files.disk, files.history;
    if ok {
      ok := luck.closes;
    }
    if ok {
      ok := files.Rename(temp, final, luck.renames);
    }
    if ok {
      Renamed(before, written, files.disk, temp, final, whole, luck.unlinks);
    } else {
      files.Unlink(temp, luck.unlinks);
      Unlinked(before, written, files.disk, temp, final, whole, luck.unlinks);
    }
  }

  lemma Renamed(before: Disk, written: Disk, after: Disk, temp: string, final: string, whole: string, unlinks: bool)
    requires OnlyTemp(before, written, temp) && temp != final && temp in written && written[temp] == whole
    requires after == (written - {temp})[final := whole]
    ensures OldOrNew(after, before, final, whole) && Committed(before - {temp}, after, true, final, Some(temp), whole, unlinks)
  {
    SameElsewhere(before, written, temp);
  }

  lemma SameElsewhere(before: Disk, written: Disk, temp: string)
    requires OnlyTemp(before, written, temp)
    ensures written - {temp} == before - {temp}
  {
    forall p | p != temp ensures p in written <==> p in before {
      assert At(written, p) == At(before, p);
    }
    forall p | p in written && p != temp ensures written[p] == before[p] {
      assert At(written, p) == At(before, p);
    }
  }

  lemma Unlinked(before: Disk, written: Disk, after: Disk, temp: string, final: string, whole: string, unlinks: bool)
    requires OnlyTemp(before, written, temp) && temp != final
    requires after == if unlinks then written - {temp} else written
    ensures OldOrNew(after, before, final, whole)
    ensures Committed(before - {temp}, after, false, final, Some(temp), whole, unlinks)
  {
    SameElsewhere(before, written, temp);
    if !unlinks {
      forall p | p != temp ensures At(after, p) == At(before - {temp}, p) {
        assert At(written, p) == At(before, p);
      }
    } else {
      assert At(after, final) == At(written, final) == At(before, final);
    }
  }

  /** The disk has a temporary name for the file and takes all of it, its closing and its renaming. */
  predicate DiskAllows(d: Disk, final: string, name: string, rs: seq<Record>, tags: nat -> string, luck: Luck) {
    FirstTemp(d, final, tags, luck.opens, 0).Some? && WholeWritten(name, rs, luck) && luck.closes && luck.renames
  }

  /** A commit that is begun for such a stage on such a disk is completed. */
  predicate Commits(d: Disk, final: string, name: string, rs: seq<Record>, limits: Limits, tags: nat -> string, luck: Luck) {
    && (forall k :: 0 <= k < |rs| ==> Writable(rs[k], limits)) && |Serialized(name, rs)| <= FileLimit(limits)
    && DiskAllows(d, final, name, rs, tags, luck)
  }

  /** What a stage can hold is committed exactly if the disk allows it: no key and no size is in the
      way any more. */
  lemma StagedCommits(d: Disk, final: string, name: string, rs: seq<Record>, limits: Limits, tags: nat -> string, luck: Luck)
    requires NameValid(name) && Stageable(rs, limits)
    ensures Commits(d, final, name, rs, limits, tags, luck) <==> DiskAllows(d, final, name, rs, tags, luck)
  {
    hide Serialized, FirstTemp, WholeWritten, Writable, NameValid, Stageable;
    StagedFits(name, rs, limits);
  }

  /** Replace a Book's file, exactly if the run is complete, the directory is safe, the stage can be
      written and the disk plays along. At every moment the final name has the old file or the
      complete new one; at the end success has changed that file alone, and failure nothing but,
      at most, a temporary file left behind. */
  method CommitOutput(files: Files, final: string, name: string, rs: seq<Record>, limits: Limits, complete: bool, safe: bool,
                      tags: nat -> string, luck: Luck) returns (ok: bool)
    modifies files
    ensures ok == (complete && safe && Commits(old(files.disk), final, name, rs, limits, tags, luck))
    ensures Committed(old(files.disk), files.disk, ok, final, FirstTemp(old(files.disk), final, tags, luck.opens, 0),
                    Serialized(name, rs), luck.unlinks)
    ensures !complete ==> files.disk == old(files.disk)
    ensures |old(files.history)| <= |files.history|
    ensures forall k :: |old(files.history)| <= k < |files.history| ==>
      OldOrNew(files.history[k], old(files.disk), final, Serialized(name, rs))
  {
    hide Serialized, OnlyTemp, OldOrNew, Committed, At, WholeWritten, FirstTemp, Writable;
    ghost var before, since, whole := files.disk, |files.history|, Serialized(name, rs);
    ghost var t := FirstTemp(before, final, tags, luck.opens, 0);
    AsBefore(before, t, final, whole, luck.unlinks);
    if !complete || !safe { return false; }
    var size := SerializedSize(name, rs, limits);
    if size.None? { return false; }
    var path := OpenTemp(files, final, tags, luck.opens);
    if path.None? { return false; }
    ghost var now := files.disk;
    Opened(before, now, path.value, final, whole);
    ok := Replace(files, final, path.value, name, rs, luck);
    forall k | since <= k < |files.history| ensures OldOrNew(files.history[k], before, final, whole) {
      if k == since {
        assert files.history[k] == now;
      } else {
        SameOld(before, now, files.history[k], final, whole);
      }
    }
  }

  lemma AsBefore(d: Disk, temp: Option<string>, final: string, whole: string, unlinks: bool)
    ensures Committed(d, d, false, final, temp, whole, unlinks)
  {
  }

  /** After a commit the final name has the new file or the old one. */
  lemma CommittedIsOldOrNew(before: Disk, after: Disk, ok: bool, final: string, temp: Option<string>, whole: string, unlinks: bool)
    requires Committed(before, after, ok, final, temp, whole, unlinks) && (temp.Some? ==> temp.value != final)
    ensures At(after, final) == if ok then Some(whole) else At(before, final)
  {
    if !ok && temp.Some? && !unlinks {
      assert OnlyTemp(before, after, temp.value);
    }
  }

  lemma SameOld(before: Disk, now: Disk, d: Disk, final: string, whole: string)
    requires At(now, final) == At(before, final) && OldOrNew(d, now, final, whole)
    ensures OldOrNew(d, before, final, whole)
  {
  }

  lemma Opened(before: Disk, now: Disk, temp: string, final: string, whole: string)
    requires temp !in before && now == before[temp := ""] && temp != final
    ensures At(now, final) == At(before, final) && OldOrNew(now, before, final, whole)
    ensures temp in now && now[temp] == "" && now - {temp} == before
  {
  }

  lemma QuietIsOld(h: seq<Disk>, since: nat, before: Disk, temp: string, final: string, whole: string)
    requires Quiet(h, since, before, temp) && temp != final
    ensures since <= |h| && forall k :: since <= k < |h| ==> OldOrNew(h[k], before, final, whole)
  {
    forall k | since <= k < |h| ensures OldOrNew(h[k], before, final, whole) {
      assert OnlyTemp(before, h[k], temp);
    }
  }
}
