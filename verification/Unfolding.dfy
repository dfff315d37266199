/** Following the links of a laid-out arena gives back the tree, and meets every node and every
    list entry exactly once. */
module Unfolding {
  import opened Arena

  // ---- following the links -----------------------------------------------------------------

  /** Following the links from node `id` unfolds to t; fields that hold no part are 0. */
  ghost predicate Unfolds(cs: seq<Cell>, es: seq<Entry>, id: nat, t: Tree)
    decreases t, 0
  {
    && 0 < id <= |cs|
    && cs[id - 1].tag == t.tag
    && (forall i :: 0 <= i < |t.parts| ==> UnfoldsPart(cs, es, Get(cs[id - 1].links, t.parts[i].slot), t.parts[i]))
    && (forall s :: Unused(t.parts, s) ==> Get(cs[id - 1].links, s) == 0)
  }

  predicate Unused(ps: seq<Part>, s: Slot) { forall i :: 0 <= i < |ps| ==> ps[i].slot != s }

  ghost predicate UnfoldsPart(cs: seq<Cell>, es: seq<Entry>, link: nat, p: Part)
    decreases p, 0
  {
    match p
    case Child(_, k) => Unfolds(cs, es, link, k)
    case Listed(_, ks) => UnfoldsList(cs, es, link, ks, 0)
    case Chained(_, ks) => UnfoldsChain(cs, es, link, ks, 0)
  }

  /** Entries from `link` until `stop` hold the trees ks. */
  ghost predicate UnfoldsList(cs: seq<Cell>, es: seq<Entry>, link: nat, ks: seq<Tree>, stop: nat)
    decreases ks, 0
  {
    if ks == [] then link == stop
    else (0 < link <= |es| && Unfolds(cs, es, es[link - 1].node, ks[0])
          && UnfoldsList(cs, es, es[link - 1].next, ks[1..], stop))
  }

  /** Statement nodes from `link` until `stop` hold the trees ks. */
  ghost predicate UnfoldsChain(cs: seq<Cell>, es: seq<Entry>, link: nat, ks: seq<Tree>, stop: nat)
    decreases ks, 0
  {
    if ks == [] then link == stop
    else Unfolds(cs, es, link, ks[0]) && UnfoldsChain(cs, es, cs[link - 1].next, ks[1..], stop)
  }

  /** Node ids met by walking the arena in the shape of t: parts in order, a node after its parts
      (a table before them). */
  ghost function NodesMet(cs: seq<Cell>, es: seq<Entry>, id: nat, t: Tree): seq<nat>
    decreases t, 0
  {
    if !(0 < id <= |cs|) then []
    else
      var inner := PartsMet(cs, es, cs[id - 1].links, t.parts);
      if Early(t) then [id] + inner else inner + [id]
  }

  ghost function PartsMet(cs: seq<Cell>, es: seq<Entry>, k: Links, ps: seq<Part>): seq<nat>
    decreases ps, 0
  {
    if ps == [] then []
    else
      var p := Last(ps);
      PartsMet(cs, es, k, Front(ps)) + PartMet(cs, es, Get(k, p.slot), p)
  }

  ghost function PartMet(cs: seq<Cell>, es: seq<Entry>, link: nat, p: Part): seq<nat>
    decreases p, 0
  {
    match p
    case Child(_, t) => NodesMet(cs, es, link, t)
    case Listed(_, ks) => ListMet(cs, es, link, ks)
    case Chained(_, ks) => ChainMet(cs, es, link, ks)
  }

  ghost function ListMet(cs: seq<Cell>, es: seq<Entry>, link: nat, ks: seq<Tree>): seq<nat>
    decreases ks, 0
  {
    if ks == [] || !(0 < link <= |es|) then []
    else NodesMet(cs, es, es[link - 1].node, ks[0]) + ListMet(cs, es, es[link - 1].next, ks[1..])
  }

  ghost function ChainMet(cs: seq<Cell>, es: seq<Entry>, link: nat, ks: seq<Tree>): seq<nat>
    decreases ks, 0
  {
    if ks == [] || !(0 < link <= |cs|) then []
    else NodesMet(cs, es, link, ks[0]) + ChainMet(cs, es, cs[link - 1].next, ks[1..])
  }

  /** List entry ids met by the same walk, an entry after the element it holds. */
  ghost function EntriesMet(cs: seq<Cell>, es: seq<Entry>, id: nat, t: Tree): seq<nat>
    decreases t, 0
  {
    if !(0 < id <= |cs|) then [] else PartsEntriesMet(cs, es, cs[id - 1].links, t.parts)
  }

  ghost function PartsEntriesMet(cs: seq<Cell>, es: seq<Entry>, k: Links, ps: seq<Part>): seq<nat>
    decreases ps, 0
  {
    if ps == [] then []
    else
      var p := Last(ps);
      PartsEntriesMet(cs, es, k, Front(ps)) + PartEntriesMet(cs, es, Get(k, p.slot), p)
  }

  ghost function PartEntriesMet(cs: seq<Cell>, es: seq<Entry>, link: nat, p: Part): seq<nat>
    decreases p, 0
  {
    match p
    case Child(_, t) => EntriesMet(cs, es, link, t)
    case Listed(_, ks) => ListEntriesMet(cs, es, link, ks)
    case Chained(_, ks) => ChainEntriesMet(cs, es, link, ks)
  }

  ghost function ListEntriesMet(cs: seq<Cell>, es: seq<Entry>, link: nat, ks: seq<Tree>): seq<nat>
    decreases ks, 0
  {
    if ks == [] || !(0 < link <= |es|) then []
    else EntriesMet(cs, es, es[link - 1].node, ks[0]) + ([link] + ListEntriesMet(cs, es, es[link - 1].next, ks[1..]))
  }

  ghost function ChainEntriesMet(cs: seq<Cell>, es: seq<Entry>, link: nat, ks: seq<Tree>): seq<nat>
    decreases ks, 0
  {
    if ks == [] || !(0 < link <= |cs|) then []
    else EntriesMet(cs, es, link, ks[0]) + ChainEntriesMet(cs, es, cs[link - 1].next, ks[1..])
  }

  // ---- where things lie --------------------------------------------------------------------

  /** x occupies s from position k on. */
  predicate Sub<T(==)>(s: seq<T>, k: nat, x: seq<T>) { k + |x| <= |s| && s[k..k + |x|] == x }

  lemma SubSplit<T>(s: seq<T>, k: nat, x: seq<T>, y: seq<T>)
    requires Sub(s, k, x + y)
    ensures Sub(s, k, x) && Sub(s, k + |x|, y)
  {
    assert s[k..k + |x|] == s[k..k + |x + y|][..|x|] == (x + y)[..|x|];
    assert s[k + |x|..k + |x| + |y|] == s[k..k + |x + y|][|x|..] == (x + y)[|x|..];
  }

  lemma SubOne<T>(s: seq<T>, k: nat, v: T)
    requires Sub(s, k, [v])
    ensures k < |s| && s[k] == v
  {
    assert s[k..k + 1][0] == v;
  }

  /** The numbers from + 1, ..., from + count. */
  function Span(from: nat, count: nat): seq<nat> { seq(count, i requires 0 <= i < count => from + 1 + i) }

  lemma SpanSplit(from: nat, x: nat, y: nat)
    ensures Span(from, x + y) == Span(from, x) + Span(from + x, y)
    ensures Span(from, 1) == [from + 1] && Span(from, 0) == []
  {
  }

  /** No two parts of a node of t share a link field. */
  predicate WellSlotted(t: Tree)
    decreases t, 0
  {
    SlotsDiffer(t.parts) && forall i :: 0 <= i < |t.parts| ==> PartSlotted(t.parts[i])
  }

  predicate SlotsDiffer(ps: seq<Part>) { forall i, j :: 0 <= i < j < |ps| ==> ps[i].slot != ps[j].slot }

  predicate PartSlotted(p: Part)
    decreases p, 0
  {
    match p
    case Child(_, t) => WellSlotted(t)
    case Listed(_, ks) => KidsSlotted(ks)
    case Chained(_, ks) => KidsSlotted(ks)
  }

  predicate KidsSlotted(ks: seq<Tree>)
    decreases ks, 0
  {
    forall i :: 0 <= i < |ks| ==> WellSlotted(ks[i])
  }

  // ---- the arena is a tree -----------------------------------------------------------------

  /** Everything about one link: it unfolds to what the part describes and the walk through it
      meets exactly the ids between n and n + PartNodes(p). */
  ghost predicate Walks(cs: seq<Cell>, es: seq<Entry>, link: nat, p: Part, n: nat, l: nat) {
    && UnfoldsPart(cs, es, link, p)
    && PartMet(cs, es, link, p) == Span(n, PartNodes(p))
    && PartEntriesMet(cs, es, link, p) == Span(l, PartEntries(p))
  }

  /** Where the nodes and entries of a tree, a list and a block lie in the arena. */
  ghost predicate TreeAt(cs: seq<Cell>, es: seq<Entry>, t: Tree, n: nat, l: nat, next: nat) {
    Sub(cs, n, CellsOf(t, n, l, next)) && Sub(es, l, EntriesOf(t, n, l))
  }

  ghost predicate ListAt(cs: seq<Cell>, es: seq<Entry>, ks: seq<Tree>, n: nat, l: nat, stop: nat) {
    Sub(cs, n, ListCells(ks, n, l)) && Sub(es, l, ListEntries(ks, n, l, stop))
  }

  ghost predicate ChainAt(cs: seq<Cell>, es: seq<Entry>, ks: seq<Tree>, n: nat, l: nat, stop: nat) {
    Sub(cs, n, ChainCells(ks, n, l, stop)) && Sub(es, l, ChainEntries(ks, n, l))
  }

  lemma LinksHold(ps: seq<Part>, n: nat, l: nat, i: nat)
    requires SlotsDiffer(ps) && i < |ps|
    ensures Get(LinksOf(ps, n, l), ps[i].slot) == LinkOf(ps[i], n + PartsNodes(ps[..i]), l + PartsEntries(ps[..i]))
  {
    var front := Front(ps);
    if i < |ps| - 1 {
      hide LinkOf, PartsNodes, PartsEntries;
      LinksHold(front, n, l, i);
      assert front[..i] == ps[..i];
      assert front[i] == ps[i] && ps[i].slot != Last(ps).slot;
    }
  }

  lemma LinksUnused(ps: seq<Part>, n: nat, l: nat, s: Slot)
    requires Unused(ps, s)
    ensures Get(LinksOf(ps, n, l), s) == 0
  {
    if ps != [] {
      LinksUnused(Front(ps), n, l, s);
    }
  }

  ghost predicate TreeWalks(cs: seq<Cell>, es: seq<Entry>, t: Tree, n: nat, l: nat, next: nat) {
    Walks(cs, es, Root(t, n), Child(A, t), n, l) && Root(t, n) <= |cs| && cs[Root(t, n) - 1].next == next
  }

  lemma {:induction false} TreeUnfolds(cs: seq<Cell>, es: seq<Entry>, t: Tree, n: nat, l: nat, next: nat)
    requires WellSlotted(t)
    requires TreeAt(cs, es, t, n, l, next)
    ensures TreeWalks(cs, es, t, n, l, next)
    decreases t, 1
  {
    var ps, m := t.parts, Inside(t, n);
    var root := [Cell(t.tag, LinksOf(ps, m, l), next)];
    if Early(t) {
      SubSplit(cs, n, root, PartsCells(ps, m, l));
      SubOne(cs, n, root[0]);
    } else {
      SubSplit(cs, n, PartsCells(ps, m, l), root);
      SubOne(cs, n + PartsNodes(ps), root[0]);
    }
    PartsUnfold(cs, es, ps, m, l);
    RootUnfolds(cs, es, t, n, l);
  }

  /** A node whose links are those of its parts, once each of the parts has been walked. */
  lemma {:induction false} RootUnfolds(cs: seq<Cell>, es: seq<Entry>, t: Tree, n: nat, l: nat)
    requires SlotsDiffer(t.parts) && Root(t, n) <= |cs|
    requires cs[Root(t, n) - 1].tag == t.tag && cs[Root(t, n) - 1].links == LinksOf(t.parts, Inside(t, n), l)
    requires PartsWalk(cs, es, t.parts, Inside(t, n), l)
    ensures Walks(cs, es, Root(t, n), Child(A, t), n, l)
  {
    hide PartsWalk, LinksOf, PartsMet, PartsEntriesMet, PartsNodes, PartsEntries;
    PartsSpan(cs, es, t.parts, t.parts, Inside(t, n), l);
    SpanSplit(n, PartsNodes(t.parts), 1);
    SpanSplit(n, 1, PartsNodes(t.parts));
    SpanSplit(n + PartsNodes(t.parts), 1, 0);
    RootHolds(cs, es, Root(t, n), t, Inside(t, n), l);
    assert NodesMet(cs, es, Root(t, n), t) == Span(n, Nodes(t));
    assert EntriesMet(cs, es, Root(t, n), t) == Span(l, Entries(t));
  }

  lemma {:induction false} RootHolds(cs: seq<Cell>, es: seq<Entry>, id: nat, t: Tree, n: nat, l: nat)
    requires SlotsDiffer(t.parts) && 0 < id <= |cs|
    requires cs[id - 1].tag == t.tag && cs[id - 1].links == LinksOf(t.parts, n, l)
    requires PartsWalk(cs, es, t.parts, n, l)
    ensures Unfolds(cs, es, id, t)
  {
    hide LinksOf, PartMet, PartEntriesMet, UnfoldsPart, LinkOf, PartsNodes, PartsEntries, SlotsDiffer, Unused;
    var ps := t.parts;
    forall i | 0 <= i < |ps| ensures UnfoldsPart(cs, es, Get(LinksOf(ps, n, l), ps[i].slot), ps[i]) {
      LinksHold(ps, n, l, i);
      assert WalkAt(cs, es, ps, i, n, l);
    }
    forall s | Unused(ps, s) ensures Get(LinksOf(ps, n, l), s) == 0 {
      LinksUnused(ps, n, l, s);
    }
  }

  /** The i-th part of ps, laid out after the ones before it, is walked. */
  ghost predicate WalkAt(cs: seq<Cell>, es: seq<Entry>, ps: seq<Part>, i: nat, n: nat, l: nat)
    requires i < |ps|
  {
    Walks(cs, es, LinkOf(ps[i], n + PartsNodes(ps[..i]), l + PartsEntries(ps[..i])), ps[i],
          n + PartsNodes(ps[..i]), l + PartsEntries(ps[..i]))
  }

  ghost predicate PartsWalk(cs: seq<Cell>, es: seq<Entry>, ps: seq<Part>, n: nat, l: nat) {
    forall i :: 0 <= i < |ps| ==> WalkAt(cs, es, ps, i, n, l)
  }

  lemma SamePrefix(cs: seq<Cell>, es: seq<Entry>, ps: seq<Part>, k: nat, i: nat, n: nat, l: nat)
    requires i < k <= |ps|
    ensures WalkAt(cs, es, ps[..k], i, n, l) == WalkAt(cs, es, ps, i, n, l)
  {
    hide Walks, LinkOf, PartsNodes, PartsEntries;
    assert ps[..k][..i] == ps[..i];
  }

  lemma PrefixWalks(cs: seq<Cell>, es: seq<Entry>, ps: seq<Part>, n: nat, l: nat)
    requires ps != []
    ensures PartsWalk(cs, es, ps, n, l)
       <==> PartsWalk(cs, es, Front(ps), n, l) && WalkAt(cs, es, ps, |ps| - 1, n, l)
  {
    hide WalkAt;
    var front := Front(ps);
    forall i | 0 <= i < |front| ensures WalkAt(cs, es, front, i, n, l) == WalkAt(cs, es, ps, i, n, l) {
      SamePrefix(cs, es, ps, |ps| - 1, i, n, l);
    }
    if PartsWalk(cs, es, front, n, l) && WalkAt(cs, es, ps, |ps| - 1, n, l) {
      forall i | 0 <= i < |ps| ensures WalkAt(cs, es, ps, i, n, l) {
        assert i < |front| ==> WalkAt(cs, es, front, i, n, l);
      }
    }
    if PartsWalk(cs, es, ps, n, l) {
      forall i | 0 <= i < |front| ensures WalkAt(cs, es, front, i, n, l) {
        assert WalkAt(cs, es, ps, i, n, l);
      }
    }
  }

  /** The walk of the last of some first parts, through the node's own link. */
  lemma LastSpan(cs: seq<Cell>, es: seq<Entry>, all: seq<Part>, ps: seq<Part>, n: nat, l: nat)
    requires ps != [] && SlotsDiffer(all) && ps <= all && WalkAt(cs, es, ps, |ps| - 1, n, l)
    ensures PartMet(cs, es, Get(LinksOf(all, n, l), Last(ps).slot), Last(ps))
         == Span(n + PartsNodes(Front(ps)), PartNodes(Last(ps)))
    ensures PartEntriesMet(cs, es, Get(LinksOf(all, n, l), Last(ps).slot), Last(ps))
         == Span(l + PartsEntries(Front(ps)), PartEntries(Last(ps)))
  {
    hide PartMet, PartEntriesMet, LinksOf, Span, SlotsDiffer, UnfoldsPart, LinkOf, PartNodes, PartEntries, PartsNodes,
         PartsEntries, Get;
    assert all[|ps| - 1] == Last(ps) && all[..|ps| - 1] == Front(ps);
    LinksHold(all, n, l, |ps| - 1);
  }

  /** The walks of the first parts of a node cover an interval. */
  lemma {:induction false} PartsSpan(cs: seq<Cell>, es: seq<Entry>, all: seq<Part>, ps: seq<Part>, n: nat, l: nat)
    requires SlotsDiffer(all) && ps <= all && PartsWalk(cs, es, ps, n, l)
    ensures PartsMet(cs, es, LinksOf(all, n, l), ps) == Span(n, PartsNodes(ps))
    ensures PartsEntriesMet(cs, es, LinksOf(all, n, l), ps) == Span(l, PartsEntries(ps))
    decreases |ps|
  {
    if ps != [] {
      hide PartsWalk, PartMet, PartEntriesMet, LinksOf, Span, SlotsDiffer, WalkAt, LinkOf, PartNodes, PartEntries, Get;
      var front, p := Front(ps), Last(ps);
      assert all[..|ps| - 1] == front;
      PrefixWalks(cs, es, ps, n, l);
      PartsSpan(cs, es, all, front, n, l);
      LastSpan(cs, es, all, ps, n, l);
      SpanSplit(n, PartsNodes(front), PartNodes(p));
      SpanSplit(l, PartsEntries(front), PartEntries(p));
    } else {
      SpanSplit(n, 0, 0);
      SpanSplit(l, 0, 0);
    }
  }

  lemma LastWalks(cs: seq<Cell>, es: seq<Entry>, ps: seq<Part>, n: nat, l: nat)
    requires ps != []
    requires Walks(cs, es, LinkOf(Last(ps), n + PartsNodes(Front(ps)), l + PartsEntries(Front(ps))), Last(ps),
                   n + PartsNodes(Front(ps)), l + PartsEntries(Front(ps)))
    ensures WalkAt(cs, es, ps, |ps| - 1, n, l)
  {
    hide Walks, LinkOf, PartsNodes, PartsEntries;
  }

  lemma {:induction false} PartsUnfold(cs: seq<Cell>, es: seq<Entry>, ps: seq<Part>, n: nat, l: nat)
    requires forall i :: 0 <= i < |ps| ==> PartSlotted(ps[i])
    requires Sub(cs, n, PartsCells(ps, n, l)) && Sub(es, l, PartsEntriesOf(ps, n, l))
    ensures PartsWalk(cs, es, ps, n, l)
    decreases ps, 1
  {
    if ps != [] {
      hide PartCells, PartEntriesOf, Sub, Walks, PartSlotted, PartsWalk, PartsNodes, PartsEntries, PartNodes, PartEntries, LinkOf, WalkAt;
      var front, p := Front(ps), Last(ps);
      SubSplit(cs, n, PartsCells(front, n, l), PartCells(p, n + PartsNodes(front), l + PartsEntries(front)));
      SubSplit(es, l, PartsEntriesOf(front, n, l), PartEntriesOf(p, n + PartsNodes(front), l + PartsEntries(front)));
      PartsUnfold(cs, es, front, n, l);
      PartUnfolds(cs, es, p, n + PartsNodes(front), l + PartsEntries(front));
      LastWalks(cs, es, ps, n, l);
      PrefixWalks(cs, es, ps, n, l);
    }
  }

  lemma {:induction false} PartUnfolds(cs: seq<Cell>, es: seq<Entry>, p: Part, n: nat, l: nat)
    requires PartSlotted(p)
    requires Sub(cs, n, PartCells(p, n, l)) && Sub(es, l, PartEntriesOf(p, n, l))
    ensures Walks(cs, es, LinkOf(p, n, l), p, n, l)
    decreases p, 2
  {
    match p
    case Child(_, t) => TreeUnfolds(cs, es, t, n, l, 0);
    case Listed(_, ks) => ListUnfolds(cs, es, ks, n, l, 0);
    case Chained(_, ks) => ChainUnfolds(cs, es, ks, n, l, 0);
  }

  ghost predicate ListWalks(cs: seq<Cell>, es: seq<Entry>, link: nat, ks: seq<Tree>, stop: nat, n: nat, l: nat) {
    && UnfoldsList(cs, es, link, ks, stop)
    && ListMet(cs, es, link, ks) == Span(n, KidsNodes(ks))
    && ListEntriesMet(cs, es, link, ks) == Span(l, KidsEntries(ks) + |ks|)
  }

  /** The first entry of a list, or what comes after an empty one. */
  function ListStart(ks: seq<Tree>, l: nat, stop: nat): nat { if ks == [] then stop else ListHead(ks, l) }

  lemma NothingWalked(cs: seq<Cell>, es: seq<Entry>, n: nat, l: nat, stop: nat)
    ensures ListWalks(cs, es, ListStart([], l, stop), [], stop, n, l)
    ensures ChainWalks(cs, es, ChainStart([], n, stop), [], stop, n, l)
  {
    SpanSplit(n, 0, 0);
    SpanSplit(l, 0, 0);
  }

  lemma KidsSplit(ks: seq<Tree>)
    requires KidsSlotted(ks) && ks != []
    ensures KidsSlotted(Front(ks)) && WellSlotted(Last(ks))
  {
    hide WellSlotted;
  }

  lemma {:induction false} ListUnfolds(cs: seq<Cell>, es: seq<Entry>, ks: seq<Tree>, n: nat, l: nat, stop: nat)
    requires KidsSlotted(ks) && ListAt(cs, es, ks, n, l, stop)
    ensures ListWalks(cs, es, ListStart(ks, l, stop), ks, stop, n, l)
    decreases ks, 1
  {
    hide ListAt, TreeAt, TreeWalks, ListWalks, WellSlotted, KidsSlotted, Nodes, Entries, Root, ListStart, KidsNodes, KidsEntries, LastEntry;
    if ks == [] {
      NothingWalked(cs, es, n, l, stop);
    } else {
      KidsSplit(ks);
      ListLaid(cs, es, ks, n, l, stop);
      ListUnfolds(cs, es, Front(ks), n, l, LastEntry(ks, l));
      TreeUnfolds(cs, es, Last(ks), n + KidsNodes(Front(ks)), LastEntry(Front(ks), l), 0);
      ListSnoc(cs, es, ks, n, l, stop);
    }
  }

  /** Where the elements of a list but the last, the last element, and its entry lie. */
  lemma ListLaid(cs: seq<Cell>, es: seq<Entry>, ks: seq<Tree>, n: nat, l: nat, stop: nat)
    requires ks != [] && ListAt(cs, es, ks, n, l, stop)
    ensures ListAt(cs, es, Front(ks), n, l, LastEntry(ks, l))
    ensures TreeAt(cs, es, Last(ks), n + KidsNodes(Front(ks)), LastEntry(Front(ks), l), 0)
    ensures EntryAt(es, LastEntry(ks, l), Root(Last(ks), n + KidsNodes(Front(ks))), stop)
  {
    hide Sub, CellsOf, EntriesOf, Nodes, Entries, Root, KidsNodes, KidsEntries, ListEntries, ListCells, LastEntry;
    var n1, l1 := n + KidsNodes(Front(ks)), LastEntry(Front(ks), l);
    LaidFront(ks, n, l, stop);
    SubSplit(cs, n, ListCells(Front(ks), n, l), CellsOf(Last(ks), n1, l1, 0));
    LaidEntries(es, ks, n, l, stop);
  }

  lemma LaidFront(ks: seq<Tree>, n: nat, l: nat, stop: nat)
    requires ks != []
    ensures ListCells(ks, n, l)
         == ListCells(Front(ks), n, l) + CellsOf(Last(ks), n + KidsNodes(Front(ks)), LastEntry(Front(ks), l), 0)
    ensures ListEntries(ks, n, l, stop)
         == ListEntries(Front(ks), n, l, LastEntry(ks, l))
            + (EntriesOf(Last(ks), n + KidsNodes(Front(ks)), LastEntry(Front(ks), l))
               + [Entry(Root(Last(ks), n + KidsNodes(Front(ks))), stop)])
  {
    hide CellsOf, EntriesOf, Nodes, Entries, Root, LastEntry, KidsNodes, KidsEntries, Front, Last;
  }

  lemma LastEntryStep(ks: seq<Tree>, l: nat)
    requires ks != []
    ensures LastEntry(ks, l) == LastEntry(Front(ks), l) + Entries(Last(ks)) + 1
  {
  }

  lemma LaidEntries(es: seq<Entry>, ks: seq<Tree>, n: nat, l: nat, stop: nat)
    requires ks != [] && Sub(es, l, ListEntries(ks, n, l, stop))
    ensures Sub(es, l, ListEntries(Front(ks), n, l, LastEntry(ks, l)))
    ensures Sub(es, LastEntry(Front(ks), l), EntriesOf(Last(ks), n + KidsNodes(Front(ks)), LastEntry(Front(ks), l)))
    ensures EntryAt(es, LastEntry(ks, l), Root(Last(ks), n + KidsNodes(Front(ks))), stop)
  {
    hide Sub, CellsOf, EntriesOf, Nodes, Entries, Root, KidsNodes, KidsEntries, ListEntries, ListCells;
    var n1, l1 := n + KidsNodes(Front(ks)), LastEntry(Front(ks), l);
    var entry := [Entry(Root(Last(ks), n1), stop)];
    LaidFront(ks, n, l, stop);
    LastEntryStep(ks, l);
    SubSplit(es, l, ListEntries(Front(ks), n, l, LastEntry(ks, l)), EntriesOf(Last(ks), n1, l1) + entry);
    SubSplit(es, l1, EntriesOf(Last(ks), n1, l1), entry);
    SubOne(es, LastEntry(ks, l) - 1, entry[0]);
  }

  predicate EntryAt(es: seq<Entry>, id: nat, node: nat, next: nat) { 0 < id <= |es| && es[id - 1] == Entry(node, next) }

  /** Walking one element more. */
  lemma {:induction false} ListSnoc(cs: seq<Cell>, es: seq<Entry>, ks: seq<Tree>, n: nat, l: nat, stop: nat)
    requires ks != []
    requires ListWalks(cs, es, ListStart(Front(ks), l, LastEntry(ks, l)), Front(ks), LastEntry(ks, l), n, l)
    requires TreeWalks(cs, es, Last(ks), n + KidsNodes(Front(ks)), LastEntry(Front(ks), l), 0)
    requires EntryAt(es, LastEntry(ks, l), Root(Last(ks), n + KidsNodes(Front(ks))), stop)
    ensures ListWalks(cs, es, ListStart(ks, l, stop), ks, stop, n, l)
  {
    hide Nodes, Entries, Root, Span, Unfolds, NodesMet, EntriesMet, ListMet, ListEntriesMet, UnfoldsList;
    var front, k := Front(ks), Last(ks);
    var l1 := LastEntry(front, l);
    SplitLast(ks);
    ListJoins(cs, es, ListStart(front, l, LastEntry(ks, l)), front, k, LastEntry(ks, l), stop);
    SpanSplit(n, KidsNodes(front), Nodes(k));
    SpanSplit(l, KidsEntries(front) + |front|, Entries(k) + 1);
    SpanSplit(l1, Entries(k), 1);
    SpanSplit(l1 + Entries(k), 1, 0);
  }

  lemma {:induction false} ListJoins(cs: seq<Cell>, es: seq<Entry>, link: nat, ks: seq<Tree>, k: Tree, id: nat, stop: nat)
    requires UnfoldsList(cs, es, link, ks, id)
    requires 0 < id <= |es| && Unfolds(cs, es, es[id - 1].node, k) && es[id - 1].next == stop
    ensures UnfoldsList(cs, es, link, ks + [k], stop)
    ensures ListMet(cs, es, link, ks + [k]) == ListMet(cs, es, link, ks) + NodesMet(cs, es, es[id - 1].node, k)
    ensures ListEntriesMet(cs, es, link, ks + [k])
         == ListEntriesMet(cs, es, link, ks) + (EntriesMet(cs, es, es[id - 1].node, k) + [id])
    decreases ks
  {
    hide Unfolds, NodesMet, EntriesMet;
    if ks == [] {
      assert ([k])[1..] == [];
      assert ks + [k] == [k];
    } else {
      ListJoins(cs, es, es[link - 1].next, ks[1..], k, id, stop);
      assert (ks + [k])[1..] == ks[1..] + [k];
    }
  }

  ghost predicate ChainWalks(cs: seq<Cell>, es: seq<Entry>, link: nat, ks: seq<Tree>, stop: nat, n: nat, l: nat) {
    && UnfoldsChain(cs, es, link, ks, stop)
    && ChainMet(cs, es, link, ks) == Span(n, KidsNodes(ks))
    && ChainEntriesMet(cs, es, link, ks) == Span(l, KidsEntries(ks))
  }

  /** The first statement of a block, or what comes after an empty one. */
  function ChainStart(ks: seq<Tree>, n: nat, stop: nat): nat { if ks == [] then stop else ChainHead(ks, n) }

  /** The id of the last statement of a block. */
  function LastRoot(ks: seq<Tree>, n: nat): nat requires ks != [] { Root(Last(ks), n + KidsNodes(Front(ks))) }

  lemma {:induction false} ChainUnfolds(cs: seq<Cell>, es: seq<Entry>, ks: seq<Tree>, n: nat, l: nat, stop: nat)
    requires KidsSlotted(ks) && ChainAt(cs, es, ks, n, l, stop)
    ensures ChainWalks(cs, es, ChainStart(ks, n, stop), ks, stop, n, l)
    decreases ks, 1
  {
    hide ChainAt, TreeAt, TreeWalks, ChainWalks, WellSlotted, KidsSlotted, Nodes, Entries, Root, ChainStart, KidsNodes, KidsEntries, LastRoot;
    if ks == [] {
      NothingWalked(cs, es, n, l, stop);
    } else {
      KidsSplit(ks);
      ChainLaid(cs, es, ks, n, l, stop);
      ChainUnfolds(cs, es, Front(ks), n, l, LastRoot(ks, n));
      TreeUnfolds(cs, es, Last(ks), n + KidsNodes(Front(ks)), l + KidsEntries(Front(ks)), stop);
      ChainSnoc(cs, es, ks, n, l, stop);
    }
  }

  /** Where the statements of a block but the last, and the last one, lie. */
  lemma ChainLaid(cs: seq<Cell>, es: seq<Entry>, ks: seq<Tree>, n: nat, l: nat, stop: nat)
    requires ks != [] && ChainAt(cs, es, ks, n, l, stop)
    ensures ChainAt(cs, es, Front(ks), n, l, LastRoot(ks, n))
    ensures TreeAt(cs, es, Last(ks), n + KidsNodes(Front(ks)), l + KidsEntries(Front(ks)), stop)
  {
    hide Sub, CellsOf, EntriesOf, Nodes, Entries, Root, KidsNodes, KidsEntries, ChainCells, ChainEntries;
    var n1, l1 := n + KidsNodes(Front(ks)), l + KidsEntries(Front(ks));
    ChainFront(ks, n, l, stop);
    SubSplit(cs, n, ChainCells(Front(ks), n, l, LastRoot(ks, n)), CellsOf(Last(ks), n1, l1, stop));
    SubSplit(es, l, ChainEntries(Front(ks), n, l), EntriesOf(Last(ks), n1, l1));
  }

  lemma ChainFront(ks: seq<Tree>, n: nat, l: nat, stop: nat)
    requires ks != []
    ensures ChainCells(ks, n, l, stop)
         == ChainCells(Front(ks), n, l, LastRoot(ks, n))
            + CellsOf(Last(ks), n + KidsNodes(Front(ks)), l + KidsEntries(Front(ks)), stop)
    ensures ChainEntries(ks, n, l)
         == ChainEntries(Front(ks), n, l) + EntriesOf(Last(ks), n + KidsNodes(Front(ks)), l + KidsEntries(Front(ks)))
  {
    hide CellsOf, EntriesOf, Nodes, Entries, Root;
  }

  lemma {:induction false} ChainSnoc(cs: seq<Cell>, es: seq<Entry>, ks: seq<Tree>, n: nat, l: nat, stop: nat)
    requires ks != []
    requires ChainWalks(cs, es, ChainStart(Front(ks), n, LastRoot(ks, n)), Front(ks), LastRoot(ks, n), n, l)
    requires TreeWalks(cs, es, Last(ks), n + KidsNodes(Front(ks)), l + KidsEntries(Front(ks)), stop)
    ensures ChainWalks(cs, es, ChainStart(ks, n, stop), ks, stop, n, l)
  {
    hide Nodes, Entries, Root, Span, NodesMet, EntriesMet, ChainMet, ChainEntriesMet, UnfoldsChain, Unfolds;
    var front, k := Front(ks), Last(ks);
    SplitLast(ks);
    ChainJoins(cs, es, ChainStart(front, n, LastRoot(ks, n)), front, k, LastRoot(ks, n), stop);
    SpanSplit(n, KidsNodes(front), Nodes(k));
    SpanSplit(l, KidsEntries(front), Entries(k));
  }

  lemma SplitLast(ks: seq<Tree>)
    requires ks != []
    ensures Front(ks) + [Last(ks)] == ks
  {
  }

  lemma InArena(cs: seq<Cell>, es: seq<Entry>, id: nat, t: Tree)
    requires Unfolds(cs, es, id, t)
    ensures 0 < id <= |cs|
  {
  }

  lemma {:induction false} ChainJoins(cs: seq<Cell>, es: seq<Entry>, link: nat, ks: seq<Tree>, k: Tree, id: nat, stop: nat)
    requires UnfoldsChain(cs, es, link, ks, id)
    requires Unfolds(cs, es, id, k) && cs[id - 1].next == stop
    ensures UnfoldsChain(cs, es, link, ks + [k], stop)
    ensures ChainMet(cs, es, link, ks + [k]) == ChainMet(cs, es, link, ks) + NodesMet(cs, es, id, k)
    ensures ChainEntriesMet(cs, es, link, ks + [k]) == ChainEntriesMet(cs, es, link, ks) + EntriesMet(cs, es, id, k)
    decreases ks
  {
    hide Unfolds, NodesMet, EntriesMet;
    if ks == [] {
      InArena(cs, es, id, k);
      assert ([k])[1..] == [];
      assert ks + [k] == [k];
    } else {
      InArena(cs, es, link, ks[0]);
      ChainJoins(cs, es, cs[link - 1].next, ks[1..], k, id, stop);
      assert (ks + [k])[1..] == ks[1..] + [k];
    }
  }

  /** A whole arena that is the layout of a block of statements, and nothing else: following the
      links from its first statement gives back the statements, and meets every node and every
      list entry exactly once, in the order of their ids. */
  lemma {:induction false} ArenaIsTree(ks: seq<Tree>)
    requires KidsSlotted(ks)
    ensures var cs, es := ChainCells(ks, 0, 0, 0), ChainEntries(ks, 0, 0);
      && UnfoldsChain(cs, es, ChainHead(ks, 0), ks, 0)
      && ChainMet(cs, es, ChainHead(ks, 0), ks) == Span(0, |cs|)
      && ChainEntriesMet(cs, es, ChainHead(ks, 0), ks) == Span(0, |es|)
  {
    ChainUnfolds(ChainCells(ks, 0, 0, 0), ChainEntries(ks, 0, 0), ks, 0, 0, 0);
  }
}
