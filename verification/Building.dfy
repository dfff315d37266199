/** How appending to the arena and patching its last links builds the layout of a tree. */
module Building {
  import opened Arena

  datatype Store = Store(cells: seq<Cell>, entries: seq<Entry>)

  const EMPTY := Store([], [])

  // ---- the parser's writes -----------------------------------------------------------------

  function AddCell(s: Store, c: Cell): Store { s.(cells := s.cells + [c]) }

  /** A new list entry for `node`, linked from the entry `tail` if there is one. */
  function AddEntry(s: Store, tail: nat, node: nat): Store {
    if 0 < tail <= |s.entries| then
      s.(entries := s.entries[tail - 1 := s.entries[tail - 1].(next := |s.entries| + 1)] + [Entry(node, 0)])
    else s.(entries := s.entries + [Entry(node, 0)])
  }

  /** Link the statement node `last`, if there is one, to the statement after it. */
  function LinkCell(s: Store, last: nat, next: nat): Store {
    if 0 < last <= |s.cells| then s.(cells := s.cells[last - 1 := s.cells[last - 1].(next := next)]) else s
  }

  /** Give the node `id` its first list. */
  function SetList(s: Store, id: nat, head: nat): Store {
    if 0 < id <= |s.cells| then
      s.(cells := s.cells[id - 1 := s.cells[id - 1].(links := s.cells[id - 1].links.(list1 := head))])
    else s
  }

  // ---- what has been built -----------------------------------------------------------------

  /** s1 is s0 followed by exactly the layout of t. */
  ghost predicate Grew(s0: Store, s1: Store, t: Tree) {
    && s1.cells == s0.cells + CellsOf(t, |s0.cells|, |s0.entries|, 0)
    && s1.entries == s0.entries + EntriesOf(t, |s0.cells|, |s0.entries|)
  }

  ghost predicate GrewPart(s0: Store, s1: Store, p: Part) {
    && s1.cells == s0.cells + PartCells(p, |s0.cells|, |s0.entries|)
    && s1.entries == s0.entries + PartEntriesOf(p, |s0.cells|, |s0.entries|)
  }

  /** s1 is s0 followed by the parts ps, which a node would hold in the links k. */
  ghost predicate GrewParts(s0: Store, s1: Store, ps: seq<Part>, k: Links) {
    && s1.cells == s0.cells + PartsCells(ps, |s0.cells|, |s0.entries|)
    && s1.entries == s0.entries + PartsEntriesOf(ps, |s0.cells|, |s0.entries|)
    && k == LinksOf(ps, |s0.cells|, |s0.entries|)
  }

  /** The id a part built after s0 is reached by. */
  function PartLink(p: Part, s0: Store): nat { LinkOf(p, |s0.cells|, |s0.entries|) }

  function TreeRoot(t: Tree, s0: Store): nat { Root(t, |s0.cells|) }

  lemma NoParts(s: Store)
    ensures GrewParts(s, s, [], NO_LINKS)
  {
  }

  lemma MorePart(s0: Store, s1: Store, s2: Store, ps: seq<Part>, k: Links, p: Part)
    requires GrewParts(s0, s1, ps, k) && GrewPart(s1, s2, p)
    ensures GrewParts(s0, s2, ps + [p], Put(k, p.slot, PartLink(p, s1)))
  {
    hide PartCells, PartEntriesOf, LinkOf, PartNodes, PartEntries;
    assert Front(ps + [p]) == ps && Last(ps + [p]) == p;
  }

  /** A node written after its parts completes the tree. */
  lemma Close(s0: Store, s1: Store, ps: seq<Part>, k: Links, tag: Tag)
    requires GrewParts(s0, s1, ps, k) && tag.kind != TableNode
    ensures Grew(s0, AddCell(s1, Cell(tag, k, 0)), Tree(tag, ps))
    ensures TreeRoot(Tree(tag, ps), s0) == |s1.cells| + 1
  {
    hide PartsCells, PartsEntriesOf, LinksOf;
  }

  lemma ChildGrew(s0: Store, s1: Store, slot: Slot, t: Tree)
    requires Grew(s0, s1, t)
    ensures GrewPart(s0, s1, Child(slot, t)) && PartLink(Child(slot, t), s0) == TreeRoot(t, s0)
  {
    hide CellsOf, EntriesOf;
  }

  lemma CloseLeaf(s: Store, tag: Tag)
    requires tag.kind != TableNode
    ensures Grew(s, AddCell(s, Cell(tag, NO_LINKS, 0)), Tree(tag, [])) && TreeRoot(Tree(tag, []), s) == |s.cells| + 1
  {
    NoParts(s);
    Close(s, s, [], NO_LINKS, tag);
  }

  lemma CloseOne(s0: Store, s1: Store, tag: Tag, p: Part)
    requires GrewPart(s0, s1, p) && tag.kind != TableNode
    ensures Grew(s0, AddCell(s1, Cell(tag, Put(NO_LINKS, p.slot, PartLink(p, s0)), 0)), Tree(tag, [p]))
    ensures TreeRoot(Tree(tag, [p]), s0) == |s1.cells| + 1
  {
    hide PartCells, PartEntriesOf, PartsCells, PartsEntriesOf, GrewParts, Grew, GrewPart;
    NoParts(s0);
    MorePart(s0, s0, s1, [], NO_LINKS, p);
    assert [] + [p] == [p];
    Close(s0, s1, [p], Put(NO_LINKS, p.slot, PartLink(p, s0)), tag);
  }

  lemma CloseTwo(s0: Store, s1: Store, s2: Store, tag: Tag, p: Part, q: Part)
    requires GrewPart(s0, s1, p) && GrewPart(s1, s2, q) && tag.kind != TableNode
    ensures Grew(s0, AddCell(s2, Cell(tag, Put(Put(NO_LINKS, p.slot, PartLink(p, s0)), q.slot, PartLink(q, s1)), 0)),
                 Tree(tag, [p, q]))
    ensures TreeRoot(Tree(tag, [p, q]), s0) == |s2.cells| + 1
  {
    hide PartCells, PartEntriesOf, PartsCells, PartsEntriesOf, GrewParts, Grew, GrewPart, Put;
    var k := Put(NO_LINKS, p.slot, PartLink(p, s0));
    NoParts(s0);
    MorePart(s0, s0, s1, [], NO_LINKS, p);
    assert [] + [p] == [p] && [p] + [q] == [p, q];
    MorePart(s0, s1, s2, [p], k, q);
    Close(s0, s2, [p, q], Put(k, q.slot, PartLink(q, s1)), tag);
  }

  // ---- lists -------------------------------------------------------------------------------

  ghost predicate GrewList(s0: Store, s1: Store, ks: seq<Tree>) {
    && s1.cells == s0.cells + ListCells(ks, |s0.cells|, |s0.entries|)
    && s1.entries == s0.entries + ListEntries(ks, |s0.cells|, |s0.entries|, 0)
  }

  /** The last entry of a list built after s0; 0 if it is empty. */
  function EndOfList(ks: seq<Tree>, s0: Store): nat { if ks == [] then 0 else LastEntry(ks, |s0.entries|) }

  lemma ListGrew(s0: Store, s1: Store, slot: Slot, ks: seq<Tree>)
    requires GrewList(s0, s1, ks)
    ensures GrewPart(s0, s1, Listed(slot, ks)) && PartLink(Listed(slot, ks), s0) == ListHead(ks, |s0.entries|)
  {
    hide ListCells, ListEntries;
  }

  /** Only the last entry of a list depends on what comes after it. */
  lemma Relink(ks: seq<Tree>, n: nat, l: nat, x: nat, y: nat)
    requires ks != []
    ensures var es := ListEntries(ks, n, l, x);
      es[|es| - 1 := es[|es| - 1].(next := y)] == ListEntries(ks, n, l, y)
  {
    hide EntriesOf, Root, Nodes, Entries, KidsNodes, KidsEntries, LastEntry;
    var before := ListEntries(Front(ks), n, l, LastEntry(ks, l)) + EntriesOf(Last(ks), n + KidsNodes(Front(ks)), LastEntry(Front(ks), l));
    var node := Root(Last(ks), n + KidsNodes(Front(ks)));
    assert ListEntries(ks, n, l, x) == before + [Entry(node, x)];
    assert ListEntries(ks, n, l, y) == before + [Entry(node, y)];
  }

  lemma PatchInside<T>(a: seq<T>, b: seq<T>, c: seq<T>, v: T)
    requires b != []
    ensures (a + b + c)[|a| + |b| - 1 := v] == a + b[|b| - 1 := v] + c
  {
  }

  lemma MoreKids(ks: seq<Tree>, k: Tree)
    ensures Front(ks + [k]) == ks && Last(ks + [k]) == k
    ensures KidsNodes(ks + [k]) == KidsNodes(ks) + Nodes(k) && KidsEntries(ks + [k]) == KidsEntries(ks) + Entries(k)
  {
    hide Nodes, Entries;
    assert Front(ks + [k]) == ks;
  }

  /** What one more element adds to a list: its own layout, and an entry for it that the last one
      before it points to. */
  lemma ListStep(ks: seq<Tree>, k: Tree, n: nat, l: nat)
    ensures var n1, l1 := n + KidsNodes(ks), LastEntry(ks, l);
      var id := l1 + Entries(k) + 1;
      && ListCells(ks + [k], n, l) == ListCells(ks, n, l) + CellsOf(k, n1, l1, 0)
      && ListEntries(ks + [k], n, l, 0) == ListEntries(ks, n, l, id) + (EntriesOf(k, n1, l1) + [Entry(Root(k, n1), 0)])
  {
    hide CellsOf, EntriesOf, Nodes, Entries, Root, KidsNodes, KidsEntries, Front, Last;
    MoreKids(ks, k);
  }

  lemma EndStep(ks: seq<Tree>, k: Tree, s0: Store)
    ensures var l1 := LastEntry(ks, |s0.entries|);
      && EndOfList(ks + [k], s0) == l1 + Entries(k) + 1 && EndOfList(ks, s0) == (if ks == [] then 0 else l1)
      && ListHead(ks + [k], |s0.entries|) == if ks == [] then l1 + Entries(k) + 1 else ListHead(ks, |s0.entries|)
  {
    hide Nodes, Entries, Front, Last;
    MoreKids(ks, k);
  }

  lemma NoListEntries(n: nat, l: nat)
    ensures forall next :: ListEntries([], n, l, next) == []
  {
  }

  lemma Appended<T>(a: seq<T>, b: seq<T>, c: seq<T>, d: seq<T>)
    ensures a + b + c + d == a + (b + (c + d))
  {
  }

  lemma MoreListed(s0: Store, s1: Store, s2: Store, ks: seq<Tree>, k: Tree)
    requires GrewList(s0, s1, ks) && Grew(s1, s2, k)
    ensures GrewList(s0, AddEntry(s2, EndOfList(ks, s0), TreeRoot(k, s1)), ks + [k])
    ensures EndOfList(ks + [k], s0) == |s2.entries| + 1
    ensures ListHead(ks + [k], |s0.entries|) == if ks == [] then |s2.entries| + 1 else ListHead(ks, |s0.entries|)
  {
    hide CellsOf, EntriesOf, Entries, Root, Nodes, ListCells, ListEntries, EndOfList, ListHead, KidsNodes, KidsEntries;
    ListStep(ks, k, |s0.cells|, |s0.entries|);
    EndStep(ks, k, s0);
    var n, l, id, root := |s0.cells|, |s0.entries|, |s2.entries| + 1, TreeRoot(k, s1);
    var own, last := EntriesOf(k, |s1.cells|, |s1.entries|), [Entry(root, 0)];
    var es := ListEntries(ks, n, l, 0);
    if ks == [] {
      NoListEntries(n, l);
      assert AddEntry(s2, 0, root).entries == s0.entries + [] + own + last;
    } else {
      Relink(ks, n, l, 0, id);
      PatchInside(s0.entries, es, own, es[|es| - 1].(next := id));
      assert AddEntry(s2, |s1.entries|, root).entries == s0.entries + ListEntries(ks, n, l, id) + own + last;
    }
    Appended(s0.entries, ListEntries(ks, n, l, id), own, last);
  }

  // ---- blocks ------------------------------------------------------------------------------

  ghost predicate GrewChain(s0: Store, s1: Store, ks: seq<Tree>) {
    && s1.cells == s0.cells + ChainCells(ks, |s0.cells|, |s0.entries|, 0)
    && s1.entries == s0.entries + ChainEntries(ks, |s0.cells|, |s0.entries|)
  }

  /** The last statement of a block built after s0; 0 if it is empty. */
  function EndOfChain(ks: seq<Tree>, s0: Store): nat {
    if ks == [] then 0 else Root(Last(ks), |s0.cells| + KidsNodes(Front(ks)))
  }

  lemma NoChain(s: Store)
    ensures GrewChain(s, s, [])
  {
  }

  lemma ChainGrew(s0: Store, s1: Store, slot: Slot, ks: seq<Tree>)
    requires GrewChain(s0, s1, ks)
    ensures GrewPart(s0, s1, Chained(slot, ks)) && PartLink(Chained(slot, ks), s0) == ChainHead(ks, |s0.cells|)
  {
    hide ChainCells, ChainEntries;
  }

  predicate Statement(t: Tree) { t.tag.kind != TableNode }

  /** Only the last statement of a block depends on what comes after it. */
  lemma RelinkChain(ks: seq<Tree>, n: nat, l: nat, x: nat, y: nat)
    requires ks != [] && Statement(Last(ks))
    ensures var cs := ChainCells(ks, n, l, x);
      cs != [] && cs[|cs| - 1 := cs[|cs| - 1].(next := y)] == ChainCells(ks, n, l, y)
  {
    hide PartsCells, LinksOf, Entries, KidsEntries, PartsNodes;
    var k, n1, l1 := Last(ks), n + KidsNodes(Front(ks)), l + KidsEntries(Front(ks));
    var before := ChainCells(Front(ks), n, l, Root(k, n1)) + PartsCells(k.parts, n1, l1);
    assert ChainCells(ks, n, l, x) == before + [Cell(k.tag, LinksOf(k.parts, n1, l1), x)];
    assert ChainCells(ks, n, l, y) == before + [Cell(k.tag, LinksOf(k.parts, n1, l1), y)];
  }

  /** What one more statement adds to a block: the link to it, and its own layout. */
  lemma ChainStep(ks: seq<Tree>, k: Tree, s0: Store, s1: Store)
    requires |s1.cells| == |s0.cells| + KidsNodes(ks) && |s1.entries| == |s0.entries| + KidsEntries(ks)
    ensures ChainCells(ks + [k], |s0.cells|, |s0.entries|, 0)
         == ChainCells(ks, |s0.cells|, |s0.entries|, TreeRoot(k, s1)) + CellsOf(k, |s1.cells|, |s1.entries|, 0)
    ensures ChainEntries(ks + [k], |s0.cells|, |s0.entries|)
         == ChainEntries(ks, |s0.cells|, |s0.entries|) + EntriesOf(k, |s1.cells|, |s1.entries|)
    ensures EndOfChain(ks + [k], s0) == TreeRoot(k, s1)
    ensures ChainHead(ks + [k], |s0.cells|) == if ks == [] then TreeRoot(k, s1) else ChainHead(ks, |s0.cells|)
  {
    hide CellsOf, EntriesOf, Nodes, Entries, Root;
    assert Front(ks + [k]) == ks && Last(ks + [k]) == k;
  }

  lemma MoreChained(s0: Store, s1: Store, s2: Store, ks: seq<Tree>, k: Tree)
    requires GrewChain(s0, s1, ks) && Grew(s1, s2, k)
    requires ks != [] ==> Statement(Last(ks))
    ensures GrewChain(s0, LinkCell(s2, EndOfChain(ks, s0), TreeRoot(k, s1)), ks + [k])
    ensures EndOfChain(ks + [k], s0) == TreeRoot(k, s1)
    ensures ChainHead(ks + [k], |s0.cells|) == if ks == [] then TreeRoot(k, s1) else ChainHead(ks, |s0.cells|)
  {
    hide CellsOf, EntriesOf, PartsCells, PartsEntriesOf, LinksOf, Nodes, Entries, Root, ChainCells, ChainEntries, EndOfChain,
         ChainHead;
    ChainStep(ks, k, s0, s1);
    var n, l, id := |s0.cells|, |s0.entries|, TreeRoot(k, s1);
    var own := CellsOf(k, |s1.cells|, |s1.entries|, 0);
    if ks == [] {
      NoChainEnd(s0);
    } else {
      var cs := ChainCells(ks, n, l, 0);
      RelinkChain(ks, n, l, 0, id);
      ChainEnd(ks, s0);
      PatchInside(s0.cells, cs, own, cs[|cs| - 1].(next := id));
    }
  }

  lemma NoChainEnd(s0: Store)
    ensures EndOfChain([], s0) == 0
    ensures forall next :: ChainCells([], |s0.cells|, |s0.entries|, next) == []
  {
  }

  lemma ChainEnd(ks: seq<Tree>, s0: Store)
    requires ks != [] && Statement(Last(ks))
    ensures EndOfChain(ks, s0) == |s0.cells| + KidsNodes(ks)
  {
    hide PartsNodes;
  }

  // ---- table constructors ------------------------------------------------------------------

  /** The layout of a node with one list. */
  lemma OneList(ks: seq<Tree>, n: nat, l: nat)
    ensures var ps := [Listed(List1, ks)];
      && PartsCells(ps, n, l) == ListCells(ks, n, l) && PartsEntriesOf(ps, n, l) == ListEntries(ks, n, l, 0)
      && LinksOf(ps, n, l) == NO_LINKS.(list1 := ListHead(ks, l))
  {
    hide ListCells, ListEntries, ListHead, PartNodes, PartEntries;
    var p := Listed(List1, ks);
    assert Front([p]) == [] && Last([p]) == p;
  }

  /** The table node is written first and given its list at the end. */
  lemma CloseTable(s0: Store, s1: Store, tag: Tag, ks: seq<Tree>)
    requires tag.kind == TableNode && GrewList(AddCell(s0, Cell(tag, NO_LINKS, 0)), s1, ks)
    ensures Grew(s0, SetList(s1, |s0.cells| + 1, ListHead(ks, |s0.entries|)), Tree(tag, [Listed(List1, ks)]))
    ensures TreeRoot(Tree(tag, [Listed(List1, ks)]), s0) == |s0.cells| + 1
  {
    hide ListCells, ListEntries, ListHead, PartsCells, PartsEntriesOf, LinksOf;
    OneList(ks, |s0.cells| + 1, |s0.entries|);
  }
}
