/** Module names, and the loader that runs each module once. */
module Modules {
  import opened Syntax
  import opened Values

  const MODULE_LIMIT: nat := 128
  const MODULE_DEPTH: nat := 32
  const NAME_BLOCK: nat := 256
  const SOURCE_BUDGET: nat := 4 * 1024 * 1024
  const FILE_LIMIT: nat := 1024 * 1024

  // ---- names -------------------------------------------------------------------------------

  datatype Namespace = Kami | System | User

  function Prefix(n: Namespace): string {
    match n
    case Kami => "kami." case System => "modules." case User => "user."
  }

  predicate NameByte(c: char) { 'A' <= c <= 'Z' || 'a' <= c <= 'z' || '0' <= c <= '9' || c == '_' || c == '-' }

  /** Segments of name bytes with single dots between them; n bytes of a segment have been read. */
  predicate SegmentsFrom(t: string, n: nat) {
    if t == "" then n > 0
    else if t[0] == '.' then n > 0 && SegmentsFrom(t[1..], 0)
    else NameByte(t[0]) && n + 1 < NAME_BLOCK && SegmentsFrom(t[1..], n + 1)
  }

  datatype Canonical = Canonical(space: Namespace, remainder: string)

  predicate Under(name: string, n: Namespace) { |Prefix(n)| < |name| && name[..|Prefix(n)|] == Prefix(n) }

  /** The namespace of a name and what comes after its prefix, if the name is canonical. */
  function CanonicalOf(name: string): Option<Canonical> {
    if |name| == 0 || |name| >= NAME_BLOCK then None
    else
      var space := if Under(name, Kami) then Some(Kami) else if Under(name, System) then Some(System)
                   else if Under(name, User) then Some(User) else None;
      if space.None? then None
      else
        var remainder := name[|Prefix(space.value)|..];
        if SegmentsFrom(remainder, 0) then Some(Canonical(space.value, remainder)) else None
  }

  /** The check as the loop makes it. */
  method CheckSegments(t: string) returns (ok: bool)
    ensures ok == SegmentsFrom(t, 0)
  {
    var i, segment := 0, 0;
    assert t[0..] == t;
    while i < |t|
      invariant 0 <= i <= |t| && 0 <= segment && SegmentsFrom(t[i..], segment) == SegmentsFrom(t, 0)
    {
      assert t[i..][1..] == t[i + 1..];
      if t[i] == '.' {
        if segment == 0 { return false; }
        segment := 0;
      } else {
        if !NameByte(t[i]) { return false; }
        segment := segment + 1;
        if segment >= NAME_BLOCK { return false; }
      }
      i := i + 1;
    }
    ok := segment != 0;
  }

  // ---- paths -------------------------------------------------------------------------------

  /** The bytes before the first dot. */
  function Segment(t: string): (s: string)
    ensures |s| <= |t| && t[..|s|] == s && (|s| < |t| ==> t[|s|] == '.')
    ensures forall k :: 0 <= k < |s| ==> s[k] != '.'
  {
    if t == "" || t[0] == '.' then "" else [t[0]] + Segment(t[1..])
  }

  /** The directories and the file that a name leads to; none if a component is empty or too long. */
  function Components(t: string): Option<seq<string>>
    decreases |t|
  {
    var s := Segment(t);
    if |s| == 0 || |s| >= NAME_BLOCK then None
    else if |s| == |t| then Some([s + ".lua"])
    else
      var rest := Components(t[|s| + 1..]);
      if rest.None? then None else Some([s] + rest.value)
  }

  lemma {:induction false} SegmentsSplit(t: string, n: nat)
    requires SegmentsFrom(t, n)
    ensures n + |Segment(t)| < NAME_BLOCK || |Segment(t)| == 0
    ensures n + |Segment(t)| > 0
    ensures |Segment(t)| < |t| ==> SegmentsFrom(t[|Segment(t)| + 1..], 0)
    decreases t
  {
    if t != "" && t[0] != '.' {
      SegmentsSplit(t[1..], n + 1);
      var s := Segment(t[1..]);
      assert |s| < |t| - 1 ==> t[1..][|s| + 1..] == t[|s| + 2..];
    }
  }

  /** A canonical name always leads somewhere: the walk never finds a component it would reject. */
  lemma {:induction false} CanonicalHasPath(t: string)
    requires SegmentsFrom(t, 0)
    ensures Components(t).Some? && Components(t).value != []
    decreases |t|
  {
    SegmentsSplit(t, 0);
    if |Segment(t)| < |t| {
      CanonicalHasPath(t[|Segment(t)| + 1..]);
    }
  }

  /** A path has one component exactly if its name has no dot. */
  lemma PathStep(t: string)
    requires Components(t).Some?
    ensures var s, x := Segment(t), Components(t).value;
      if |s| == |t| then t == s && x == [s + ".lua"]
      else |s| < |t| && t == s + ['.'] + t[|s| + 1..] && Components(t[|s| + 1..]).Some?
           && Components(t[|s| + 1..]).value != [] && x == [s] + Components(t[|s| + 1..]).value
  {
    hide Segment;
    var s := Segment(t);
    if |s| < |t| {
      NotEmpty(t[|s| + 1..]);
      AroundDot(t, |s|);
    } else {
      assert t[..|t|] == t;
    }
  }

  lemma AroundDot(t: string, n: nat)
    requires n < |t| && t[n] == '.'
    ensures t == t[..n] + ['.'] + t[n + 1..]
  {
  }

  lemma NotEmpty(t: string)
    ensures Components(t).Some? ==> Components(t).value != []
  {
  }

  lemma SameFile(a: string, b: string)
    requires a + ".lua" == b + ".lua"
    ensures a == b
  {
    assert |a + ".lua"| == |a| + 4 && |b + ".lua"| == |b| + 4;
    assert (a + ".lua")[..|a|] == a && (b + ".lua")[..|b|] == b;
  }

  /** Different remainders lead to different files. */
  lemma {:induction false} PathIsUnique(t: string, u: string)
    requires Components(t).Some? && Components(t) == Components(u)
    ensures t == u
    decreases |t|
  {
    hide Components, Segment;
    PathStep(t);
    PathStep(u);
    var a, b := Segment(t), Segment(u);
    if |a| < |t| && |b| < |u| {
      var x, y := Components(t[|a| + 1..]).value, Components(u[|b| + 1..]).value;
      assert ([a] + x)[1..] == x && ([b] + y)[1..] == y && ([a] + x)[0] == a && ([b] + y)[0] == b;
      PathIsUnique(t[|a| + 1..], u[|b| + 1..]);
    } else {
      assert |Components(t).value| == |Components(u).value|;
      if |a| == |t| && |b| == |u| {
        assert [a + ".lua"][0] == [b + ".lua"][0];
        SameFile(a, b);
      }
    }
  }

  /** Different canonical names lead to different files of their namespaces. */
  lemma NamesLeadApart(name: string, other: string)
    requires CanonicalOf(name).Some? && CanonicalOf(other).Some?
    requires CanonicalOf(name).value.space == CanonicalOf(other).value.space
    requires Components(CanonicalOf(name).value.remainder) == Components(CanonicalOf(other).value.remainder)
    ensures name == other
  {
    var a, b := CanonicalOf(name).value, CanonicalOf(other).value;
    CanonicalHasPath(a.remainder);
    PathIsUnique(a.remainder, b.remainder);
    var n := |Prefix(a.space)|;
    assert name == name[..n] + name[n..] && other == other[..n] + other[n..];
  }

  // ---- loading -----------------------------------------------------------------------------

  datatype Status = Loading | Loaded

  datatype Entry = Entry(name: string, status: Status, value: Value)

  /** A module file: how long it is, whether it is a program, what running it requires one after the
      other, whether it then reaches its end, and the values it returns. */
  datatype Source = Source(length: nat, readable: bool, parses: bool, imports: seq<string>, succeeds: bool, returned: seq<Value>)

  /** What a path leads to, if it can be opened. */
  type Library = (Namespace, seq<string>) -> Option<Source>

  /** The value of a module: what it returned, or true. */
  function ModuleValue(vs: seq<Value>): Value { if vs != [] && vs[0] != NilV then vs[0] else BoolV(true) }

  function IndexOf(entries: seq<Entry>, name: string): (i: nat)
    ensures i <= |entries|
    ensures i < |entries| ==> entries[i].name == name
    ensures forall j :: 0 <= j < i ==> entries[j].name != name
  {
    if entries == [] || entries[0].name == name then 0 else 1 + IndexOf(entries[1..], name)
  }

  predicate Has(entries: seq<Entry>, name: string, status: Status) {
    IndexOf(entries, name) < |entries| && entries[IndexOf(entries, name)].status == status
  }

  predicate Different<T(==)>(s: seq<T>) { forall i, j :: 0 <= i < j < |s| ==> s[i] != s[j] }

  function Position<T(==)>(s: seq<T>, x: T): (i: nat)
    ensures i <= |s| && (i < |s| <==> x in s) && (i < |s| ==> s[i] == x)
  {
    if s == [] || s[0] == x then 0 else 1 + Position(s[1..], x)
  }

  /** What has happened so far: the requires that are under way, the module bodies that have been
      started and those that have been completed, in order, which module required which, and
      whether anything has failed. */
  datatype Trace = Trace(stack: seq<string>, started: seq<string>, finished: seq<string>, edges: set<(string, string)>, failed: bool)

  /** Each body has been started at most once; the loading modules are those under way, as long as
      nothing has failed, and the loaded ones those completed. */
  ghost predicate Consistent(entries: seq<Entry>, t: Trace) {
    && (forall i, j :: 0 <= i < j < |entries| ==> entries[i].name != entries[j].name)
    && Different(t.stack) && Different(t.started) && Different(t.finished)
    && (forall n :: n in t.stack ==> Has(entries, n, Loading))
    && (forall n :: n in t.finished <==> Has(entries, n, Loaded))
    && (forall n :: n in t.finished ==> n in t.started)
    && (forall n :: n in t.started ==> IndexOf(entries, n) < |entries|)
    && (!t.failed ==> forall n :: Has(entries, n, Loading) ==> n in t.stack)
  }

  /** What a module requires is completed before the module. */
  ghost predicate Sorted(t: Trace) {
    forall m, n :: (m, n) in t.edges ==>
      n in t.finished && (m in t.finished ==> Position(t.finished, n) < Position(t.finished, m))
  }

  /** Later: nothing that has been started or completed is undone, loaded values stay, and the same
      requires are under way. */
  ghost predicate Later(es: seq<Entry>, t: Trace, es': seq<Entry>, t': Trace) {
    && t'.stack == t.stack && t.started <= t'.started && t.finished <= t'.finished && t.edges <= t'.edges
    && (t.failed ==> t'.failed)
    && |es| <= |es'| && (forall i :: 0 <= i < |es| ==> es'[i].name == es[i].name)
    && (forall i :: 0 <= i < |es| && es[i].status == Loaded ==> es'[i] == es[i])
  }

  lemma LaterTrans(a: seq<Entry>, s: Trace, b: seq<Entry>, t: Trace, c: seq<Entry>, u: Trace)
    requires Later(a, s, b, t) && Later(b, t, c, u)
    ensures Later(a, s, c, u)
  {
  }

  lemma LaterSelf(es: seq<Entry>, t: Trace)
    ensures Later(es, t, es, t) && Later(es, t, es, t.(failed := true))
  {
  }

  lemma {:induction false} IndexKept(es: seq<Entry>, es': seq<Entry>, name: string)
    requires |es| <= |es'| && (forall i :: 0 <= i < |es| ==> es'[i].name == es[i].name) && IndexOf(es, name) < |es|
    ensures IndexOf(es', name) == IndexOf(es, name)
    decreases es
  {
    if es[0].name != name {
      IndexKept(es[1..], es'[1..], name);
    }
  }

  lemma {:induction false} IndexOfNew(es: seq<Entry>, e: Entry, name: string)
    ensures IndexOf(es + [e], name)
         == if IndexOf(es, name) < |es| then IndexOf(es, name) else if e.name == name then |es| else |es| + 1
    decreases es
  {
    if es == [] {
      assert ([] + [e])[1..] == [];
    } else {
      IndexOfNew(es[1..], e, name);
      assert (es + [e])[1..] == es[1..] + [e];
    }
  }

  /** A module that is not known yet begins to load. */
  lemma Begun(es: seq<Entry>, t: Trace, name: string)
    requires Consistent(es, t) && IndexOf(es, name) == |es|
    ensures Consistent(es + [Entry(name, Loading, NilV)], t.(stack := t.stack + [name]))
    ensures IndexOf(es + [Entry(name, Loading, NilV)], name) == |es| && name !in t.started
  {
    hide IndexOf, Has, Different;
    var e := Entry(name, Loading, NilV);
    IndexOfNew(es, e, name);
    forall n, s ensures Has(es + [e], n, s) == (Has(es, n, s) || (n == name && s == Loading)) {
      HasNew(es, e, n, s);
    }
    forall n | n in t.started ensures IndexOf(es + [e], n) < |es + [e]| {
      IndexOfNew(es, e, n);
    }
    NotKnown(es, name);
    DifferentMore(t.stack, name);
  }

  lemma HasNew(es: seq<Entry>, e: Entry, n: string, s: Status)
    requires IndexOf(es, e.name) == |es|
    ensures Has(es + [e], n, s) == (Has(es, n, s) || (n == e.name && s == e.status))
  {
    IndexOfNew(es, e, n);
  }

  lemma NotKnown(es: seq<Entry>, name: string)
    requires IndexOf(es, name) == |es|
    ensures !Has(es, name, Loading) && !Has(es, name, Loaded) && forall i :: 0 <= i < |es| ==> es[i].name != name
  {
  }

  lemma DifferentMore<T>(s: seq<T>, x: T)
    requires Different(s) && x !in s
    ensures Different(s + [x])
  {
  }

  lemma DifferentLess<T>(s: seq<T>)
    requires Different(s) && s != []
    ensures Different(s[..|s| - 1]) && s[|s| - 1] !in s[..|s| - 1]
    ensures forall x :: x in s ==> x in s[..|s| - 1] || x == s[|s| - 1]
  {
    var front, x := s[..|s| - 1], s[|s| - 1];
    forall i | 0 <= i < |front| ensures front[i] != x {
      assert front[i] == s[i];
    }
  }

  /** Its body is started, for the first time. */
  lemma Started(es: seq<Entry>, t: Trace, name: string)
    requires Consistent(es, t) && IndexOf(es, name) < |es| && name !in t.started
    ensures Consistent(es, t.(started := t.started + [name]))
  {
  }

  /** It is completed with a value. */
  lemma Completed(es: seq<Entry>, t: Trace, name: string, v: Value)
    requires Consistent(es, t) && Sorted(t) && t.stack != [] && t.stack[|t.stack| - 1] == name && name in t.started
    ensures IndexOf(es, name) < |es|
    ensures var i := IndexOf(es, name);
      var es', t' := es[i := Entry(name, Loaded, v)], t.(stack := t.stack[..|t.stack| - 1], finished := t.finished + [name]);
      Consistent(es', t') && Sorted(t') && IndexOf(es', name) == i
  {
    hide IndexOf, Has, Different;
    assert Has(es, name, Loading);
    HasIndex(es, name);
    var i, e := IndexOf(es, name), Entry(name, Loaded, v);
    var es' := es[i := e];
    SameIndex(es, i, e, name);
    forall n, s ensures Has(es', n, s) == if n == name then s == Loaded else Has(es, n, s) {
      HasSet(es, e, n, s);
    }
    forall n | n in t.started ensures IndexOf(es', n) < |es'| {
      SameIndex(es, i, e, n);
    }
    OneStatus(es, name);
    DifferentLess(t.stack);
    DifferentMore(t.finished, name);
    CompletedSorted(t, name);
    StillSorted(t.(finished := t.finished + [name]), t.(stack := t.stack[..|t.stack| - 1], finished := t.finished + [name]));
  }

  lemma OneStatus(es: seq<Entry>, name: string)
    requires Has(es, name, Loading)
    ensures !Has(es, name, Loaded)
  {
  }

  lemma HasIndex(es: seq<Entry>, name: string)
    requires Has(es, name, Loading)
    ensures IndexOf(es, name) < |es| && es[IndexOf(es, name)].name == name
  {
  }

  lemma HasSet(es: seq<Entry>, e: Entry, n: string, s: Status)
    requires IndexOf(es, e.name) < |es|
    ensures Has(es[IndexOf(es, e.name) := e], n, s) == if n == e.name then s == e.status else Has(es, n, s)
  {
    SameIndex(es, IndexOf(es, e.name), e, n);
  }

  lemma CompletedSorted(t: Trace, name: string)
    requires Sorted(t) && name !in t.finished
    ensures Sorted(t.(finished := t.finished + [name]))
  {
    hide Position;
    forall n | n in t.finished ensures Position(t.finished + [name], n) == Position(t.finished, n) < |t.finished| {
      PositionKept(t.finished, [name], n);
    }
    NewPosition(t.finished, name);
  }

  lemma {:induction false} SameIndex(es: seq<Entry>, i: nat, e: Entry, n: string)
    requires i < |es| && es[i].name == e.name
    ensures IndexOf(es[i := e], n) == IndexOf(es, n)
    decreases es
  {
    if es[0].name != n {
      if i > 0 {
        SameIndex(es[1..], i - 1, e, n);
        assert es[i := e][1..] == es[1..][i - 1 := e];
      } else {
        assert es[i := e][1..] == es[1..];
      }
    }
  }

  lemma {:induction false} PositionKept<T>(s: seq<T>, more: seq<T>, x: T)
    requires x in s
    ensures Position(s + more, x) == Position(s, x)
    decreases s
  {
    if s[0] != x {
      PositionKept(s[1..], more, x);
      assert (s + more)[1..] == s[1..] + more;
    }
  }

  lemma {:induction false} NewPosition<T>(s: seq<T>, x: T)
    requires x !in s
    ensures Position(s + [x], x) == |s|
    decreases s
  {
    if s == [] {
      assert [] + [x] == [x];
    } else {
      NewPosition(s[1..], x);
      assert (s + [x])[1..] == s[1..] + [x];
    }
  }

  /** A load that fails leaves its entry behind. */
  lemma GivenUp(es: seq<Entry>, t: Trace)
    requires Consistent(es, t) && Sorted(t) && t.stack != []
    ensures Consistent(es, t.(stack := t.stack[..|t.stack| - 1], failed := true))
    ensures Sorted(t.(stack := t.stack[..|t.stack| - 1], failed := true))
  {
  }

  lemma HasRequired(es: seq<Entry>, t: Trace, m: string, n: string)
    requires Consistent(es, t) && Sorted(t) && m in t.stack && Has(es, n, Loaded)
    ensures Consistent(es, t.(edges := t.edges + {(m, n)})) && Sorted(t.(edges := t.edges + {(m, n)}))
  {
    assert Has(es, m, Loading);
  }

  lemma StillSorted(t: Trace, t': Trace)
    requires Sorted(t) && t'.finished == t.finished && t'.edges == t.edges
    ensures Sorted(t')
  {
  }

  lemma StartedLater(es: seq<Entry>, t: Trace, name: string)
    ensures Later(es, t, es, t.(started := t.started + [name]))
  {
  }

  lemma EdgesLater(es: seq<Entry>, t: Trace, edge: (string, string))
    ensures Later(es, t, es, t.(edges := t.edges + {edge}))
  {
  }

  /** What later traces keep. */
  lemma LaterKeeps(es: seq<Entry>, t: Trace, es': seq<Entry>, t': Trace)
    requires Later(es, t, es', t')
    ensures t'.stack == t.stack && (forall n :: n in t.started ==> n in t'.started)
    ensures |es| <= |es'| && forall i :: 0 <= i < |es| ==> es'[i].name == es[i].name
  {
  }

  lemma IsLoaded(es: seq<Entry>, name: string, i: nat)
    requires IndexOf(es, name) == i < |es| && es[i].status == Loaded
    ensures Has(es, name, Loaded)
  {
  }

  /** A load that is over, successful or not, has undone nothing. */
  lemma LoadOver(es: seq<Entry>, t: Trace, name: string, es1: seq<Entry>, t1: Trace, es2: seq<Entry>, t2: Trace)
    requires Later(es + [Entry(name, Loading, NilV)], t.(stack := t.stack + [name]), es1, t1)
    requires |es2| == |es1| && (forall i :: 0 <= i < |es1| && i != |es| ==> es2[i] == es1[i]) && es2[|es|].name == name
    requires t2.stack == t1.stack[..|t1.stack| - 1] && t2.started == t1.started && t1.finished <= t2.finished
    requires t2.edges == t1.edges && (t1.failed ==> t2.failed)
    ensures Later(es, t, es2, t2)
  {
    var es0 := es + [Entry(name, Loading, NilV)];
    forall i | 0 <= i < |es| ensures es0[i] == es[i] {
    }
  }

  // ---- what requiring does -----------------------------------------------------------------

  /** What the loader knows, and what has happened to it. */
  datatype Load = Load(entries: seq<Entry>, depth: nat, sourceBytes: nat, trace: Trace)

  const UNLOADED: Load := Load([], 0, 0, Trace([], [], [], {}, false))

  datatype Answer = Answer(ok: bool, value: Value, l: Load)

  datatype Return = Return(ok: bool, values: seq<Value>, l: Load)

  function Spoiled(l: Load): Load { l.(trace := l.trace.(failed := true)) }

  /** How much deeper requires may be nested. */
  function Room(l: Load): nat { if l.depth < MODULE_DEPTH then MODULE_DEPTH - l.depth else 0 }

  function Opened(l: Load, name: string): Load {
    l.(entries := l.entries + [Entry(name, Loading, NilV)], depth := l.depth + 1, trace := l.trace.(stack := l.trace.stack + [name]))
  }

  function Popped(t: Trace): Trace { if t.stack == [] then t else t.(stack := t.stack[..|t.stack| - 1]) }

  function Entered(es: seq<Entry>, e: Entry): seq<Entry> {
    if IndexOf(es, e.name) < |es| then es[IndexOf(es, e.name) := e] else es
  }

  /** The module is over: it has a value, or its entry is left as it is. */
  function Over(l: Load, name: string, ok: bool, v: Value): Load {
    var t := Popped(l.trace);
    var depth := if l.depth > 0 then l.depth - 1 else 0;
    if ok then l.(entries := Entered(l.entries, Entry(name, Loaded, v)), depth := depth, trace := t.(finished := t.finished + [name]))
    else l.(depth := depth, trace := t.(failed := true))
  }

  /** A module that cannot be required now: its name is not canonical, it is loading, or there is no
      room for one more or for one deeper. */
  predicate Unavailable(l: Load, name: string) {
    var i := IndexOf(l.entries, name);
    || CanonicalOf(name).None? || (i < |l.entries| && l.entries[i].status == Loading)
    || (i == |l.entries| && (i >= MODULE_LIMIT || l.depth >= MODULE_DEPTH))
  }

  /** The value of a loaded module, or of one that is loaded now. */
  function Required(lib: Library, l: Load, name: string): (a: Answer)
    ensures a.l.depth == l.depth && a.l.trace.stack == l.trace.stack && (!a.ok ==> a.value == NilV)
    decreases Room(l), 2
  {
    var i := IndexOf(l.entries, name);
    if Unavailable(l, name) then Answer(false, NilV, Spoiled(l))
    else if i < |l.entries| then Answer(true, l.entries[i].value, l)
    else
      var r := Ran(lib, Opened(l, name), name, CanonicalOf(name).value);
      Answer(r.ok, if r.ok then ModuleValue(r.values) else NilV, Over(r.l, name, r.ok, ModuleValue(r.values)))
  }

  /** The file of a module, if it can be opened, read and parsed within the budget. */
  function SourceOf(lib: Library, l: Load, c: Canonical): Option<Source> {
    var path := Components(c.remainder);
    if path.None? then None
    else
      var found := lib(c.space, path.value);
      if found.None? || found.value.length > FILE_LIMIT || l.sourceBytes + found.value.length > SOURCE_BUDGET
         || !found.value.readable || !found.value.parses
      then None else found
  }

  function Begins(l: Load, name: string, length: nat): Load {
    l.(sourceBytes := l.sourceBytes + length, trace := l.trace.(started := l.trace.started + [name]))
  }

  /** The module's body is run. */
  function Ran(lib: Library, l: Load, name: string, c: Canonical): (r: Return)
    ensures r.l.depth == l.depth && r.l.trace.stack == l.trace.stack
    decreases Room(l), 4
  {
    var source := SourceOf(lib, l, c);
    if source.None? then Return(false, [], l)
    else
      var a := Imported(lib, Begins(l, name, source.value.length), name, source.value.imports);
      Return(a.ok && source.value.succeeds, source.value.returned, a.l)
  }

  function Linked(l: Load, m: string, n: string): Load { l.(trace := l.trace.(edges := l.trace.edges + {(m, n)})) }

  /** Modules required by m one after the other, until one cannot be had. */
  function Imported(lib: Library, l: Load, m: string, names: seq<string>): (a: Answer)
    ensures a.l.depth == l.depth && a.l.trace.stack == l.trace.stack && a.value == NilV
    decreases Room(l), 3, names
  {
    if names == [] then Answer(true, NilV, l)
    else
      var a := Required(lib, l, names[0]);
      if !a.ok then a else Imported(lib, Linked(a.l, m, names[0]), m, names[1..])
  }

  // ---- what it keeps -----------------------------------------------------------------------

  /** The entries and the trace agree, imports are completed first, and every limit is kept. */
  ghost predicate Sound(l: Load) {
    && Consistent(l.entries, l.trace) && Sorted(l.trace)
    && |l.entries| <= MODULE_LIMIT && l.depth == |l.trace.stack| <= MODULE_DEPTH && l.sourceBytes <= SOURCE_BUDGET
  }

  ghost predicate Fine(l: Load, l': Load) {
    Sound(l') && Later(l.entries, l.trace, l'.entries, l'.trace) && l.sourceBytes <= l'.sourceBytes
  }

  lemma FineTrans(a: Load, b: Load, c: Load)
    requires Fine(a, b) && Fine(b, c)
    ensures Fine(a, c)
  {
    hide Consistent, Sorted, Later;
    LaterTrans(a.entries, a.trace, b.entries, b.trace, c.entries, c.trace);
  }

  lemma FineSelf(l: Load)
    requires Sound(l)
    ensures Fine(l, l) && Fine(l, Spoiled(l))
  {
    LaterSelf(l.entries, l.trace);
  }

  lemma OpenedSound(l: Load, name: string)
    requires Sound(l) && IndexOf(l.entries, name) == |l.entries| < MODULE_LIMIT && l.depth < MODULE_DEPTH
    ensures Sound(Opened(l, name)) && name !in l.trace.started && IndexOf(Opened(l, name).entries, name) == |l.entries|
  {
    hide Consistent, Later, IndexOf, Sorted;
    Begun(l.entries, l.trace, name);
    StillSorted(l.trace, Opened(l, name).trace);
  }

  lemma BeginsFine(l: Load, name: string, length: nat)
    requires Sound(l) && IndexOf(l.entries, name) < |l.entries| && name !in l.trace.started
    requires l.sourceBytes + length <= SOURCE_BUDGET
    ensures Fine(l, Begins(l, name, length)) && name in Begins(l, name, length).trace.started
  {
    hide Consistent, Later, IndexOf, Sorted;
    Started(l.entries, l.trace, name);
    StartedLater(l.entries, l.trace, name);
    StillSorted(l.trace, Begins(l, name, length).trace);
  }

  lemma LinkedFine(l: Load, m: string, n: string)
    requires Sound(l) && m in l.trace.stack && Has(l.entries, n, Loaded)
    ensures Fine(l, Linked(l, m, n))
  {
    hide Consistent, Later, Sorted, Has;
    HasRequired(l.entries, l.trace, m, n);
    EdgesLater(l.entries, l.trace, (m, n));
  }

  /** What follows a module's body. */
  lemma OverFine(l: Load, r: Load, name: string, ok: bool, v: Value)
    requires Sound(l) && IndexOf(l.entries, name) == |l.entries|
    requires Fine(Opened(l, name), r) && (ok ==> name in r.trace.started)
    ensures Fine(l, Over(r, name, ok, v))
    ensures ok ==> Has(Over(r, name, ok, v).entries, name, Loaded)
    ensures ok ==> Over(r, name, ok, v).entries[IndexOf(Over(r, name, ok, v).entries, name)].value == v
  {
    hide Consistent, Sorted, Later, Has, IndexOf;
    var b, o := Opened(l, name), Over(r, name, ok, v);
    LaterKeeps(b.entries, b.trace, r.entries, r.trace);
    IndexOfNew(l.entries, Entry(name, Loading, NilV), name);
    IndexKept(b.entries, r.entries, name);
    assert r.trace.stack == l.trace.stack + [name] && r.trace.stack[..|l.trace.stack|] == l.trace.stack;
    if ok {
      Completed(r.entries, r.trace, name, v);
      IsLoaded(o.entries, name, |l.entries|);
    } else {
      GivenUp(r.entries, r.trace);
    }
    LoadOver(l.entries, l.trace, name, r.entries, r.trace, o.entries, o.trace);
  }

  lemma SourceFits(lib: Library, l: Load, c: Canonical)
    requires SourceOf(lib, l, c).Some?
    ensures l.sourceBytes + SourceOf(lib, l, c).value.length <= SOURCE_BUDGET
  {
  }

  /** What an answer promises: the module is loaded and this is its value, or something has failed. */
  ghost predicate Honest(l: Load, name: string, a: Answer) {
    if a.ok then
      a.l.trace.failed == l.trace.failed && Has(a.l.entries, name, Loaded) && a.l.entries[IndexOf(a.l.entries, name)].value == a.value
    else a.l.trace.failed
  }

  /** Requiring a module keeps the loader sound and undoes nothing, whatever the module requires in
      turn: in particular no body is started twice, and imports are completed first. */
  lemma {:induction false} RequiredFine(lib: Library, l: Load, name: string)
    requires Sound(l)
    ensures var a := Required(lib, l, name); Fine(l, a.l) && Honest(l, name, a)
    decreases Room(l), 2
  {
    hide Sound, Fine, Has, Ran, Over, Imported, CanonicalOf;
    FineSelf(l);
    var i := IndexOf(l.entries, name);
    if !Unavailable(l, name) {
      if i < |l.entries| {
        IsLoaded(l.entries, name, i);
      } else {
        var b := Opened(l, name);
        OpenedSound(l, name);
        var r := Ran(lib, b, name, CanonicalOf(name).value);
        RanFine(lib, b, name, CanonicalOf(name).value);
        OverFine(l, r.l, name, r.ok, ModuleValue(r.values));
        OverFails(r.l, name, r.ok, ModuleValue(r.values));
      }
    }
  }

  lemma OverFails(l: Load, name: string, ok: bool, v: Value)
    ensures Over(l, name, ok, v).trace.failed == (!ok || l.trace.failed)
  {
  }

  lemma {:induction false} RanFine(lib: Library, l: Load, name: string, c: Canonical)
    requires Sound(l) && l.trace.stack != [] && l.trace.stack[|l.trace.stack| - 1] == name && name !in l.trace.started
    requires IndexOf(l.entries, name) < |l.entries|
    ensures var r := Ran(lib, l, name, c);
      Fine(l, r.l) && (r.ok ==> name in r.l.trace.started && r.l.trace.failed == l.trace.failed)
    decreases Room(l), 4
  {
    hide Sound, Fine, Required, Imported, IndexOf, SourceOf;
    FineSelf(l);
    var source := SourceOf(lib, l, c);
    if source.Some? {
      SourceFits(lib, l, c);
      var b := Begins(l, name, source.value.length);
      BeginsFine(l, name, source.value.length);
      FineIs(l, b);
      ImportedFine(lib, b, name, source.value.imports);
      var a := Imported(lib, b, name, source.value.imports);
      FineTrans(l, b, a.l);
      FineIs(b, a.l);
    }
  }

  lemma FineIs(l: Load, l': Load)
    requires Fine(l, l')
    ensures Sound(l') && l'.trace.stack == l.trace.stack && forall n :: n in l.trace.started ==> n in l'.trace.started
  {
    hide Consistent, Sorted;
  }

  lemma {:induction false} ImportedFine(lib: Library, l: Load, m: string, names: seq<string>)
    requires Sound(l) && m in l.trace.stack
    ensures var a := Imported(lib, l, m, names);
      Fine(l, a.l) && (if a.ok then a.l.trace.failed == l.trace.failed else a.l.trace.failed)
    decreases Room(l), 3, names
  {
    hide Sound, Fine, Required, Has, IndexOf;
    FineSelf(l);
    if names != [] {
      var a := Required(lib, l, names[0]);
      RequiredFine(lib, l, names[0]);
      FineIs(l, a.l);
      if a.ok {
        var b := Linked(a.l, m, names[0]);
        LinkedFine(a.l, m, names[0]);
        FineIs(a.l, b);
        FineTrans(l, a.l, b);
        ImportedFine(lib, b, m, names[1..]);
        FineTrans(l, b, Imported(lib, b, m, names[1..]).l);
      }
    }
  }

  // ---- whole runs --------------------------------------------------------------------------

  /** What a Book requires, one after the other, until one module cannot be had. */
  function RequiredAll(lib: Library, l: Load, names: seq<string>): (a: Answer)
    decreases names
  {
    if names == [] then Answer(true, NilV, l)
    else
      var a := Required(lib, l, names[0]);
      if !a.ok then a else RequiredAll(lib, a.l, names[1..])
  }

  lemma {:induction false} AllFine(lib: Library, l: Load, names: seq<string>)
    requires Sound(l)
    ensures var a := RequiredAll(lib, l, names);
      Fine(l, a.l) && (if a.ok then a.l.trace.failed == l.trace.failed else a.l.trace.failed)
    decreases names
  {
    hide Sound, Fine, Required, Has, IndexOf;
    FineSelf(l);
    if names != [] {
      var a := Required(lib, l, names[0]);
      RequiredFine(lib, l, names[0]);
      FineIs(l, a.l);
      if a.ok {
        AllFine(lib, a.l, names[1..]);
        FineTrans(l, a.l, RequiredAll(lib, a.l, names[1..]).l);
      }
    }
  }

  /** Over a whole run of any Book: each module's body is run at most once and after those of its
      imports, nothing is left loading unless something failed, and the budget is kept. */
  lemma RunIsOrderly(lib: Library, names: seq<string>)
    ensures var a := RequiredAll(lib, UNLOADED, names);
      && Different(a.l.trace.started) && Sorted(a.l.trace) && a.l.depth == 0 && a.l.sourceBytes <= SOURCE_BUDGET
      && (a.ok ==> forall n :: n in a.l.trace.started <==> n in a.l.trace.finished)
      && (a.ok ==> forall i :: 0 <= i < |a.l.entries| ==> a.l.entries[i].status == Loaded)
  {
    hide Sorted;
    NothingYet();
    AllFine(lib, UNLOADED, names);
    var a := RequiredAll(lib, UNLOADED, names);
    if a.ok {
      forall i | 0 <= i < |a.l.entries| ensures a.l.entries[i].status == Loaded {
        OnlyOne(a.l.entries, i);
        assert a.l.trace.stack == [] && !Has(a.l.entries, a.l.entries[i].name, Loading);
      }
      forall n | n in a.l.trace.started ensures n in a.l.trace.finished {
        assert IndexOf(a.l.entries, n) < |a.l.entries|;
      }
    }
  }

  lemma NothingYet()
    ensures Sound(UNLOADED)
  {
  }

  lemma {:induction false} OnlyOne(es: seq<Entry>, i: nat)
    requires i < |es| && forall j, k :: 0 <= j < k < |es| ==> es[j].name != es[k].name
    ensures IndexOf(es, es[i].name) == i
  {
    var j := IndexOf(es, es[i].name);
    assert j <= i;
  }

  /** Once loaded, a module keeps its value: requiring it again, after whatever has been required in
      between, changes nothing and gives the same value. */
  lemma RequiredAgain(lib: Library, l: Load, name: string, between: seq<string>)
    requires Sound(l) && Required(lib, l, name).ok
    ensures var a := Required(lib, l, name);
      var b := RequiredAll(lib, a.l, between).l;
      Required(lib, b, name) == Answer(true, a.value, b)
  {
    hide Sorted, Sound, Fine, RequiredAll;
    RequiredFine(lib, l, name);
    var a := Required(lib, l, name);
    FineIs(l, a.l);
    AllFine(lib, a.l, between);
    var b := RequiredAll(lib, a.l, between).l;
    Stays(a.l, b, name);
    IsCanonical(lib, l, name);
  }

  lemma IsCanonical(lib: Library, l: Load, name: string)
    requires Required(lib, l, name).ok
    ensures CanonicalOf(name).Some?
  {
  }

  lemma Stays(l: Load, l': Load, name: string)
    requires Fine(l, l') && Has(l.entries, name, Loaded)
    ensures Has(l'.entries, name, Loaded) && IndexOf(l'.entries, name) == IndexOf(l.entries, name)
    ensures l'.entries[IndexOf(l'.entries, name)].value == l.entries[IndexOf(l.entries, name)].value
  {
    hide Sorted, Consistent;
    IndexKept(l.entries, l'.entries, name);
  }

  // ---- the loader --------------------------------------------------------------------------

  class Loader {
    const library: Library
    var entries: seq<Entry>
    var depth: nat
    var sourceBytes: nat
    ghost var trace: Trace

    constructor (library: Library)
      ensures this.library == library && Now() == UNLOADED
    {
      this.library := library;
      entries, depth, sourceBytes := [], 0, 0;
      trace := Trace([], [], [], {}, false);
    }

    ghost function Now(): Load
      reads this
    {
      Load(entries, depth, sourceBytes, trace)
    }

    method Find(name: string) returns (i: nat)
      ensures i == IndexOf(entries, name)
    {
      i := 0;
      assert entries[0..] == entries;
      while i < |entries| && entries[i].name != name
        invariant i <= |entries| && IndexOf(entries, name) == i + IndexOf(entries[i..], name)
      {
        assert entries[i..][1..] == entries[i + 1..];
        i := i + 1;
      }
    }

    /** Require a module: the value of a loaded one, or load it. */
    method Require(name: string) returns (ok: bool, value: Value)
      modifies this
      ensures Answer(ok, value, Now()) == Required(library, old(Now()), name)
      decreases Room(Now()), 2
    {
      hide Ran, CanonicalOf;
      value := NilV;
      var c := CanonicalOf(name);
      var i := Find(name);
      if c.None? || (i < |entries| && entries[i].status == Loading) || (i == |entries| && (i >= MODULE_LIMIT || depth >= MODULE_DEPTH)) {
        trace := trace.(failed := true);
        return false, NilV;
      }
      if i < |entries| { return true, entries[i].value; }
      entries := entries + [Entry(name, Loading, NilV)];
      depth := depth + 1;
      trace := trace.(stack := trace.stack + [name]);
      assert Now() == Opened(old(Now()), name);
      var returned;
      ok, returned := Run(name, c.value);
      value := if ok then ModuleValue(returned) else NilV;
      Leave(name, ok, ModuleValue(returned));
    }

    /** The entry gets its value, if there is one, and the depth is given back. */
    method Leave(name: string, ok: bool, v: Value)
      modifies this
      ensures Now() == Over(old(Now()), name, ok, v)
    {
      if ok {
        var i := Find(name);
        if i < |entries| {
          entries := entries[i := Entry(name, Loaded, v)];
        }
      }
      if depth > 0 {
        depth := depth - 1;
      }
      trace := Popped(trace);
      trace := if ok then trace.(finished := trace.finished + [name]) else trace.(failed := true);
    }

    /** Open, read and parse a module's file and run its body. */
    method Run(name: string, c: Canonical) returns (ok: bool, returned: seq<Value>)
      modifies this
      ensures Return(ok, returned, Now()) == Ran(library, old(Now()), name, c)
      decreases Room(Now()), 4
    {
      hide Components, Imported;
      var path := Components(c.remainder);
      if path.None? { return false, []; }
      var found := library(c.space, path.value);
      if found.None? || found.value.length > FILE_LIMIT { return false, []; }
      var source := found.value;
      if sourceBytes + source.length > SOURCE_BUDGET || !source.readable || !source.parses { return false, []; }
      sourceBytes := sourceBytes + source.length;
      trace := trace.(started := trace.started + [name]);
      assert Now() == Begins(old(Now()), name, source.length);
      ok := Import(name, source.imports);
      ok := ok && source.succeeds;
      returned := source.returned;
    }

    /** Require what a module's body requires, one after the other, until one fails. */
    method Import(name: string, names: seq<string>) returns (ok: bool)
      modifies this
      ensures Answer(ok, NilV, Now()) == Imported(library, old(Now()), name, names)
      decreases Room(Now()), 3
    {
      hide Required;
      ok := true;
      var i := 0;
      assert names[0..] == names;
      while ok && i < |names|
        invariant i <= |names| && depth == old(depth)
        invariant Imported(library, old(Now()), name, names)
               == if ok then Imported(library, Now(), name, names[i..]) else Answer(false, NilV, Now())
        decreases ok, |names| - i
      {
        var value;
        assert names[i..][0] == names[i] && names[i..][1..] == names[i + 1..];
        ok, value := Require(names[i]);
        if ok {
          trace := trace.(edges := trace.edges + {(name, names[i])});
        }
        i := i + 1;
      }
    }
  }
}
