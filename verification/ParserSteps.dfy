/** The single steps of the parser on values: what one grammar function does next, and what one
    completed phrase adds to the arena. */
module ParserSteps {
  import opened Tokens
  import opened Syntax
  import opened Grammar
  import opened Arena
  import opened Building
  import opened Trees
  import opened Unfolding

  /** A node as it is stored: the payload is the index of a token. */
  datatype Node = Node(kind: AstKind, op: Kind, token: nat, links: Links, next: nat, flags: nat)

  function Fresh(kind: AstKind, token: nat, links: Links): Node { Node(kind, Kind.EOF, token, links, 0, 0) }

  /** Nodes whose token is read again when the program runs. */
  predicate HasPayload(kind: AstKind, flags: nat) {
    || kind == NumberNode || kind == StringNode || kind == VariableNode || kind == FieldNode
    || kind == ForNumericNode || kind == LocalFunctionNode
    || (kind == TableFieldNode && flags == FIELD_NAMED)
  }

  /** A stored node with the text of its payload. */
  function Seen(n: Node, tokens: seq<Token>): Cell {
    var text := if HasPayload(n.kind, n.flags) && n.token < |tokens| then tokens[n.token].text else "";
    Cell(Tag(n.kind, n.op, n.flags, text), n.links, n.next)
  }

  function Abstract(nodes: seq<Node>, tokens: seq<Token>): (r: seq<Cell>)
    ensures |r| == |nodes|
  {
    seq(|nodes|, i requires 0 <= i < |nodes| => Seen(nodes[i], tokens))
  }

  /** What a parsing method reports: the phrase the grammar reads here, or that there is none or
      no room for it. */
  ghost predicate Reads<T(!new)>(spec: Parsed<T>, ok: bool, value: T, rest: seq<Token>, full: bool) {
    if ok then spec == Ok(value, rest) else spec.Err? || full
  }

  /** Part of a phrase has been read and the grammar goes on with `next`, or there is none or no room. */
  ghost predicate Goes<T(!new)>(spec: Parsed<T>, ok: bool, next: Parsed<T>, full: bool) {
    if ok then spec == next else spec.Err? || full
  }

  /** A completed phrase: the arena grew by its layout and id is its root. */
  ghost predicate Built(s0: Store, s1: Store, t: Tree, id: nat) { Grew(s0, s1, t) && id == TreeRoot(t, s0) }

  /** A list under construction, its first and its last entry. */
  ghost predicate ListBuilt(s0: Store, s1: Store, ks: seq<Tree>, head: nat, tail: nat) {
    GrewList(s0, s1, ks) && head == ListHead(ks, |s0.entries|) && tail == EndOfList(ks, s0)
  }

  ghost predicate ListDone(s0: Store, s1: Store, ks: seq<Tree>, head: nat) {
    GrewList(s0, s1, ks) && head == ListHead(ks, |s0.entries|)
  }

  /** A block under construction, its first and its last statement. */
  ghost predicate ChainBuilt(s0: Store, s1: Store, ks: seq<Tree>, first: nat, last: nat) {
    GrewChain(s0, s1, ks) && first == ChainHead(ks, |s0.cells|) && last == EndOfChain(ks, s0)
  }

  ghost predicate ChainDone(s0: Store, s1: Store, ks: seq<Tree>, first: nat) {
    GrewChain(s0, s1, ks) && first == ChainHead(ks, |s0.cells|)
  }

  /** The end of an if statement whose clauses have all been read. */
  function IfEnd(ts: seq<Token>, arms: seq<Arm>, hasElse: bool, last: seq<Stmt>): Parsed<Stmt> {
    if Starts(ts, Kind.End) then Ok(IfStmt(arms, hasElse, last), ts[1..]) else Err
  }

  // ---- what a phrase adds to the arena -----------------------------------------------------

  lemma LeafBuilt(s: Store, tag: Tag)
    requires tag.kind != TableNode
    ensures Built(s, AddCell(s, Cell(tag, NO_LINKS, 0)), Tree(tag, []), |s.cells| + 1)
  {
    CloseLeaf(s, tag);
  }

  lemma ChildBuilt(s0: Store, s1: Store, tag: Tag, slot: Slot, t: Tree, id: nat)
    requires Built(s0, s1, t, id) && tag.kind != TableNode
    ensures Built(s0, AddCell(s1, Cell(tag, Put(NO_LINKS, slot, id), 0)), Tree(tag, [Child(slot, t)]), |s1.cells| + 1)
  {
    hide Grew, GrewPart, AddCell, TreeRoot, Put;
    ChildGrew(s0, s1, slot, t);
    CloseOne(s0, s1, tag, Child(slot, t));
  }

  lemma ChildrenBuilt(s0: Store, s1: Store, s2: Store, tag: Tag, slot: Slot, t: Tree, id: nat, slot': Slot, t': Tree, id': nat)
    requires Built(s0, s1, t, id) && Built(s1, s2, t', id') && tag.kind != TableNode
    ensures Built(s0, AddCell(s2, Cell(tag, Put(Put(NO_LINKS, slot, id), slot', id'), 0)),
                  Tree(tag, [Child(slot, t), Child(slot', t')]), |s2.cells| + 1)
  {
    hide Grew, GrewPart, AddCell, TreeRoot, Put;
    ChildGrew(s0, s1, slot, t);
    ChildGrew(s1, s2, slot', t');
    CloseTwo(s0, s1, s2, tag, Child(slot, t), Child(slot', t'));
  }

  lemma ListOnlyBuilt(s0: Store, s1: Store, tag: Tag, ks: seq<Tree>, head: nat)
    requires ListDone(s0, s1, ks, head) && tag.kind != TableNode
    ensures Built(s0, AddCell(s1, Cell(tag, NO_LINKS.(list1 := head), 0)), Tree(tag, [Listed(List1, ks)]), |s1.cells| + 1)
  {
    hide Grew, GrewList, GrewPart, AddCell, TreeRoot, ListHead;
    ListGrew(s0, s1, List1, ks);
    CloseOne(s0, s1, tag, Listed(List1, ks));
  }

  lemma ListsBuilt(s0: Store, s1: Store, s2: Store, tag: Tag, ks: seq<Tree>, head: nat, ks': seq<Tree>, head': nat)
    requires ListDone(s0, s1, ks, head) && ListDone(s1, s2, ks', head') && tag.kind != TableNode
    ensures Built(s0, AddCell(s2, Cell(tag, NO_LINKS.(list1 := head, list2 := head'), 0)),
                  Tree(tag, [Listed(List1, ks), Listed(List2, ks')]), |s2.cells| + 1)
  {
    hide Grew, GrewList, GrewPart, AddCell, TreeRoot, ListHead;
    ListGrew(s0, s1, List1, ks);
    ListGrew(s1, s2, List2, ks');
    CloseTwo(s0, s1, s2, tag, Listed(List1, ks), Listed(List2, ks'));
  }

  lemma ChainOnlyBuilt(s0: Store, s1: Store, tag: Tag, slot: Slot, ks: seq<Tree>, first: nat)
    requires ChainDone(s0, s1, ks, first) && tag.kind != TableNode
    ensures Built(s0, AddCell(s1, Cell(tag, Put(NO_LINKS, slot, first), 0)), Tree(tag, [Chained(slot, ks)]), |s1.cells| + 1)
  {
    hide Grew, GrewChain, GrewPart, AddCell, TreeRoot, ChainHead, Put;
    ChainGrew(s0, s1, slot, ks);
    CloseOne(s0, s1, tag, Chained(slot, ks));
  }

  lemma ChildListBuilt(s0: Store, s1: Store, s2: Store, tag: Tag, t: Tree, id: nat, ks: seq<Tree>, head: nat)
    requires Built(s0, s1, t, id) && ListDone(s1, s2, ks, head) && tag.kind != TableNode
    ensures Built(s0, AddCell(s2, Cell(tag, NO_LINKS.(a := id, list1 := head), 0)),
                  Tree(tag, [Child(A, t), Listed(List1, ks)]), |s2.cells| + 1)
  {
    hide Grew, GrewList, GrewPart, AddCell, TreeRoot, ListHead;
    ChildGrew(s0, s1, A, t);
    ListGrew(s1, s2, List1, ks);
    CloseTwo(s0, s1, s2, tag, Child(A, t), Listed(List1, ks));
  }

  lemma ChildChainBuilt(s0: Store, s1: Store, s2: Store, tag: Tag, t: Tree, id: nat, ks: seq<Tree>, first: nat)
    requires Built(s0, s1, t, id) && ChainDone(s1, s2, ks, first) && tag.kind != TableNode
    ensures Built(s0, AddCell(s2, Cell(tag, NO_LINKS.(a := id, b := first), 0)),
                  Tree(tag, [Child(A, t), Chained(B, ks)]), |s2.cells| + 1)
  {
    hide Grew, GrewChain, GrewPart, AddCell, TreeRoot, ChainHead;
    ChildGrew(s0, s1, A, t);
    ChainGrew(s1, s2, B, ks);
    CloseTwo(s0, s1, s2, tag, Child(A, t), Chained(B, ks));
  }

  lemma ListChainBuilt(s0: Store, s1: Store, s2: Store, tag: Tag, ks: seq<Tree>, head: nat, body: seq<Tree>, first: nat)
    requires ListDone(s0, s1, ks, head) && ChainDone(s1, s2, body, first) && tag.kind != TableNode
    ensures Built(s0, AddCell(s2, Cell(tag, NO_LINKS.(list1 := head, a := first), 0)),
                  Tree(tag, [Listed(List1, ks), Chained(A, body)]), |s2.cells| + 1)
  {
    hide Grew, GrewList, GrewChain, GrewPart, AddCell, TreeRoot, ListHead, ChainHead;
    ListGrew(s0, s1, List1, ks);
    ChainGrew(s1, s2, A, body);
    CloseTwo(s0, s1, s2, tag, Listed(List1, ks), Chained(A, body));
  }

  lemma GenericBuilt(s0: Store, s1: Store, s2: Store, s3: Store, tag: Tag, ks: seq<Tree>, head: nat,
                     vs: seq<Tree>, head': nat, body: seq<Tree>, first: nat)
    requires ListDone(s0, s1, ks, head) && ListDone(s1, s2, vs, head') && ChainDone(s2, s3, body, first)
    requires tag.kind != TableNode
    ensures Built(s0, AddCell(s3, Cell(tag, NO_LINKS.(list1 := head, list2 := head', a := first), 0)),
                  Tree(tag, [Listed(List1, ks), Listed(List2, vs), Chained(A, body)]), |s3.cells| + 1)
  {
    hide Grew, GrewList, GrewChain, GrewPart, GrewParts, AddCell, TreeRoot, ListHead, ChainHead;
    var p, q, r := Listed(List1, ks), Listed(List2, vs), Chained(A, body);
    ListGrew(s0, s1, List1, ks);
    ListGrew(s1, s2, List2, vs);
    ChainGrew(s2, s3, A, body);
    NoParts(s0);
    MorePart(s0, s0, s1, [], NO_LINKS, p);
    MorePart(s0, s1, s2, [] + [p], NO_LINKS.(list1 := head), q);
    MorePart(s0, s2, s3, [] + [p] + [q], NO_LINKS.(list1 := head, list2 := head'), r);
    Close(s0, s3, [] + [p] + [q] + [r], NO_LINKS.(list1 := head, list2 := head', a := first), tag);
    assert [] + [p] + [q] + [r] == [p, q, r];
  }

  /** The numeric loop, with or without a step. */
  lemma NumericBuilt(s0: Store, s1: Store, s2: Store, s3: Store, s4: Store, tag: Tag, t: Tree, a: nat, t': Tree, b: nat,
                     step: Option<Tree>, c: nat, body: seq<Tree>, d: nat)
    requires Built(s0, s1, t, a) && Built(s1, s2, t', b) && tag.kind != TableNode
    requires if step.Some? then Built(s2, s3, step.value, c) else s3 == s2 && c == 0
    requires ChainDone(s3, s4, body, d)
    ensures Built(s0, AddCell(s4, Cell(tag, NO_LINKS.(a := a, b := b, c := c, d := d), 0)),
                  Tree(tag, [Child(A, t), Child(B, t')] + OptionalPart(step) + [Chained(D, body)]), |s4.cells| + 1)
  {
    hide Grew, GrewChain, GrewPart, GrewParts, AddCell, TreeRoot, ChainHead;
    var p, q, r := Child(A, t), Child(B, t'), Chained(D, body);
    ChildGrew(s0, s1, A, t);
    ChildGrew(s1, s2, B, t');
    NoParts(s0);
    MorePart(s0, s0, s1, [], NO_LINKS, p);
    MorePart(s0, s1, s2, [] + [p], NO_LINKS.(a := a), q);
    assert [] + [p] + [q] == [p, q];
    assert GrewParts(s0, s3, [p, q] + OptionalPart(step), NO_LINKS.(a := a, b := b, c := c)) by {
      if step.Some? {
        ChildGrew(s2, s3, C, step.value);
        MorePart(s0, s2, s3, [p, q], NO_LINKS.(a := a, b := b), Child(C, step.value));
      } else {
        assert [p, q] + [] == [p, q];
      }
    }
    ChainGrew(s3, s4, D, body);
    MorePart(s0, s3, s4, [p, q] + OptionalPart(step), NO_LINKS.(a := a, b := b, c := c), r);
    Close(s0, s4, [p, q] + OptionalPart(step) + [r], NO_LINKS.(a := a, b := b, c := c, d := d), tag);
  }

  function OptionalPart(step: Option<Tree>): seq<Part> { if step.Some? then [Child(C, step.value)] else [] }

  lemma TableBuilt(s0: Store, s1: Store, tag: Tag, ks: seq<Tree>, head: nat)
    requires tag.kind == TableNode && ListDone(AddCell(s0, Cell(tag, NO_LINKS, 0)), s1, ks, head)
    ensures Built(s0, SetList(s1, |s0.cells| + 1, head), Tree(tag, [Listed(List1, ks)]), |s0.cells| + 1)
  {
    hide Grew, GrewList, SetList, ListHead;
    CloseTable(s0, s1, tag, ks);
  }

  // ---- growing a list or a block -----------------------------------------------------------

  lemma ListStarts(s: Store)
    ensures ListBuilt(s, s, [], 0, 0)
  {
  }

  lemma ListGoesOn(s0: Store, s1: Store, s2: Store, ks: seq<Tree>, head: nat, tail: nat, k: Tree, id: nat)
    requires ListBuilt(s0, s1, ks, head, tail) && Built(s1, s2, k, id)
    ensures ListBuilt(s0, AddEntry(s2, tail, id), ks + [k], if tail == 0 then |s2.entries| + 1 else head, |s2.entries| + 1)
  {
    hide Grew, GrewList, AddEntry, ListHead, TreeRoot;
    MoreListed(s0, s1, s2, ks, k);
  }

  lemma ListEnds(s0: Store, s1: Store, ks: seq<Tree>, head: nat, tail: nat)
    requires ListBuilt(s0, s1, ks, head, tail)
    ensures ListDone(s0, s1, ks, head)
  {
    hide GrewList, ListHead, EndOfList;
  }

  lemma ChainStarts(s: Store)
    ensures ChainBuilt(s, s, [], 0, 0)
  {
  }

  lemma ChainGoesOn(s0: Store, s1: Store, s2: Store, ks: seq<Tree>, first: nat, last: nat, k: Tree, id: nat)
    requires ChainBuilt(s0, s1, ks, first, last) && Built(s1, s2, k, id)
    requires ks != [] ==> Statement(Last(ks))
    ensures ChainBuilt(s0, LinkCell(s2, last, id), ks + [k], if last == 0 then id else first, id)
  {
    hide Grew, GrewChain, LinkCell, ChainHead, TreeRoot;
    MoreChained(s0, s1, s2, ks, k);
  }

  lemma ChainEnds(s0: Store, s1: Store, ks: seq<Tree>, first: nat, last: nat)
    requires ChainBuilt(s0, s1, ks, first, last)
    ensures ChainDone(s0, s1, ks, first)
  {
    hide GrewChain, ChainHead, EndOfChain;
  }

  // ---- trees of longer lists ---------------------------------------------------------------

  lemma NoTrees()
    ensures ExprTrees([]) == [] && FieldTrees([]) == [] && NameTrees([]) == [] && StmtTrees([]) == [] && ArmTrees([]) == []
  {
  }

  lemma MoreTrees(es: seq<Expr>, e: Expr)
    ensures ExprTrees(es + [e]) == ExprTrees(es) + [ExprTree(e)]
  {
    hide ExprTree;
  }

  lemma MoreFieldTrees(fs: seq<Field>, f: Field)
    ensures FieldTrees(fs + [f]) == FieldTrees(fs) + [FieldTree(f)]
  {
    hide FieldTree;
  }

  lemma MoreNameTrees(ns: seq<string>, n: string)
    ensures NameTrees(ns + [n]) == NameTrees(ns) + [NameTree(n)]
  {
    hide NameTree;
  }

  lemma MoreStmtTrees(ss: seq<Stmt>, s: Stmt)
    ensures StmtTrees(ss + [s]) == StmtTrees(ss) + [StmtTree(s)]
  {
    hide StmtTree;
  }

  lemma MoreArmTrees(arms: seq<Arm>, arm: Arm)
    ensures ArmTrees(arms + [arm]) == ArmTrees(arms) + [ArmTree(arm)]
  {
    hide ArmTree;
  }

  lemma StmtTreesAreStatements(ss: seq<Stmt>)
    ensures StmtTrees(ss) != [] ==> Statement(Last(StmtTrees(ss)))
  {
    hide ExprTree, ExprTrees;
    if ss != [] {
      assert Last(StmtTrees(ss)) == StmtTree(ss[|ss| - 1]);
    }
  }

  /** One statement more in a block. */
  lemma BlockGoesOn(s0: Store, s1: Store, s2: Store, ss: seq<Stmt>, first: nat, last: nat, s: Stmt, id: nat)
    requires ChainBuilt(s0, s1, StmtTrees(ss), first, last) && Built(s1, s2, StmtTree(s), id)
    ensures ChainBuilt(s0, LinkCell(s2, last, id), StmtTrees(ss + [s]), if last == 0 then id else first, id)
  {
    hide ChainBuilt, Built, StmtTree, StmtTrees, LinkCell, Statement;
    StmtTreesAreStatements(ss);
    MoreStmtTrees(ss, s);
    ChainGoesOn(s0, s1, s2, StmtTrees(ss), first, last, StmtTree(s), id);
  }

  /** The node of a completed phrase carries its tag. */
  lemma RootTag(s0: Store, s1: Store, t: Tree, id: nat)
    requires Built(s0, s1, t, id)
    ensures 0 < id <= |s1.cells| && s1.cells[id - 1].tag == t.tag
  {
    hide LinksOf;
  }

  /** The list of no expressions. */
  lemma NothingListed(s: Store)
    ensures ListDone(s, s, ExprTrees([]), 0)
  {
  }

  /** The finished list of clauses of an if statement. */
  lemma IfBuilt(s0: Store, s1: Store, arms: seq<Arm>, hasElse: bool, last: seq<Stmt>, head: nat, tail: nat)
    requires ListBuilt(s0, s1, ArmTrees(arms) + ElseTrees(hasElse, last), head, tail)
    ensures Built(s0, AddCell(s1, Cell(Plain(IfNode), NO_LINKS.(list1 := head), 0)),
                  StmtTree(IfStmt(arms, hasElse, last)), |s1.cells| + 1)
  {
    hide ListBuilt, ListDone, Built, AddCell, ArmTrees, ElseTrees;
    ListEnds(s0, s1, ArmTrees(arms) + ElseTrees(hasElse, last), head, tail);
    ListOnlyBuilt(s0, s1, Plain(IfNode), ArmTrees(arms) + ElseTrees(hasElse, last), head);
  }

  lemma NoElse(arms: seq<Arm>)
    ensures ArmTrees(arms) + ElseTrees(false, []) == ArmTrees(arms)
  {
  }

  lemma WithElse(arms: seq<Arm>, last: seq<Stmt>)
    ensures ArmTrees(arms) + ElseTrees(true, last) == ArmTrees(arms) + [ElseTree(last)]
  {
  }

  // ---- the finished arena ------------------------------------------------------------------

  /** The arena is exactly the tree of the program: its links unfold to it from the root, and
      the walk along them meets the node ids 1, 2, ... and the list entry ids 1, 2, ... once each. */
  ghost predicate IsProgram(s: Store, root: nat, code: seq<Stmt>) {
    var ks := StmtTrees(code);
    && UnfoldsChain(s.cells, s.entries, root, ks, 0)
    && ChainMet(s.cells, s.entries, root, ks) == Span(0, |s.cells|)
    && ChainEntriesMet(s.cells, s.entries, root, ks) == Span(0, |s.entries|)
  }

  lemma WholeProgram(s: Store, root: nat, code: seq<Stmt>)
    requires ChainDone(EMPTY, s, StmtTrees(code), root)
    ensures IsProgram(s, root, code)
  {
    hide StmtTrees, ChainCells, ChainEntries, UnfoldsChain, ChainMet, ChainEntriesMet, ChainHead, KidsSlotted;
    StmtsSlotted(code);
    ArenaIsTree(StmtTrees(code));
    assert [] + s.cells == s.cells && [] + s.entries == s.entries;
    assert s.cells == ChainCells(StmtTrees(code), 0, 0, 0) && s.entries == ChainEntries(StmtTrees(code), 0, 0);
  }

  // ---- what each node adds, as the parser writes it ----------------------------------------

  lemma UnaryBuilt(s0: Store, s1: Store, n: Node, toks: seq<Token>, o: Expr, a: nat)
    requires n == Node(UnaryNode, n.op, n.token, NO_LINKS.(a := a), 0, 0) && Built(s0, s1, ExprTree(o), a)
    ensures Built(s0, AddCell(s1, Seen(n, toks)), ExprTree(Unary(n.op, o)), |s1.cells| + 1)
  {
    hide Built, AddCell;
    ChildBuilt(s0, s1, Tag(UnaryNode, n.op, 0, ""), A, ExprTree(o), a);
  }

  lemma BinaryBuilt(s0: Store, s1: Store, s2: Store, n: Node, toks: seq<Token>, l: Expr, a: nat, r: Expr, b: nat)
    requires n == Node(BinaryNode, n.op, n.token, NO_LINKS.(a := a, b := b), 0, 0)
    requires Built(s0, s1, ExprTree(l), a) && Built(s1, s2, ExprTree(r), b)
    ensures Built(s0, AddCell(s2, Seen(n, toks)), ExprTree(Binary(n.op, l, r)), |s2.cells| + 1)
  {
    hide Built, AddCell;
    ChildrenBuilt(s0, s1, s2, Tag(BinaryNode, n.op, 0, ""), A, ExprTree(l), a, B, ExprTree(r), b);
  }

  lemma MemberBuilt(s0: Store, s1: Store, n: Node, toks: seq<Token>, base: Expr, a: nat)
    requires n.token < |toks| && n == Fresh(FieldNode, n.token, NO_LINKS.(a := a)) && Built(s0, s1, ExprTree(base), a)
    ensures Built(s0, AddCell(s1, Seen(n, toks)), ExprTree(Member(base, toks[n.token].text)), |s1.cells| + 1)
  {
    hide Built, AddCell;
    ChildBuilt(s0, s1, Texted(FieldNode, toks[n.token].text), A, ExprTree(base), a);
  }

  lemma IndexBuilt(s0: Store, s1: Store, s2: Store, n: Node, toks: seq<Token>, base: Expr, a: nat, key: Expr, b: nat)
    requires n == Fresh(IndexNode, n.token, NO_LINKS.(a := a, b := b))
    requires Built(s0, s1, ExprTree(base), a) && Built(s1, s2, ExprTree(key), b)
    ensures Built(s0, AddCell(s2, Seen(n, toks)), ExprTree(Index(base, key)), |s2.cells| + 1)
  {
    hide Built, AddCell;
    ChildrenBuilt(s0, s1, s2, Plain(IndexNode), A, ExprTree(base), a, B, ExprTree(key), b);
  }

  lemma CallBuilt(s0: Store, s1: Store, s2: Store, n: Node, toks: seq<Token>, f: Expr, a: nat, args: seq<Expr>, head: nat)
    requires n == Fresh(CallNode, n.token, NO_LINKS.(a := a, list1 := head))
    requires Built(s0, s1, ExprTree(f), a) && ListDone(s1, s2, ExprTrees(args), head)
    ensures Built(s0, AddCell(s2, Seen(n, toks)), ExprTree(Call(f, args)), |s2.cells| + 1)
  {
    hide Built, ListDone, AddCell;
    ChildListBuilt(s0, s1, s2, Plain(CallNode), ExprTree(f), a, ExprTrees(args), head);
  }

  lemma LeafExprBuilt(s: Store, n: Node, toks: seq<Token>, e: Expr)
    requires n.next == 0 && n.links == NO_LINKS && n.kind != TableNode && ExprTree(e) == Tree(Seen(n, toks).tag, [])
    ensures Built(s, AddCell(s, Seen(n, toks)), ExprTree(e), |s.cells| + 1)
  {
    hide Built, AddCell, ExprTree;
    LeafBuilt(s, Seen(n, toks).tag);
  }

  lemma NameBuilt(s: Store, n: Node, toks: seq<Token>)
    requires n.token < |toks| && n == Fresh(VariableNode, n.token, NO_LINKS)
    ensures Built(s, AddCell(s, Seen(n, toks)), NameTree(toks[n.token].text), |s.cells| + 1)
  {
    hide Built, AddCell;
    LeafBuilt(s, Texted(VariableNode, toks[n.token].text));
  }

  lemma TableLitBuilt(s0: Store, s1: Store, n: Node, toks: seq<Token>, fs: seq<Field>, head: nat, tail: nat)
    requires n == Fresh(TableNode, n.token, NO_LINKS)
    requires ListBuilt(AddCell(s0, Seen(n, toks)), s1, FieldTrees(fs), head, tail)
    ensures Built(s0, SetList(s1, |s0.cells| + 1, head), ExprTree(TableLit(fs)), |s0.cells| + 1)
  {
    hide Built, ListDone, ListBuilt, AddCell, SetList;
    ListEnds(AddCell(s0, Seen(n, toks)), s1, FieldTrees(fs), head, tail);
    TableBuilt(s0, s1, Plain(TableNode), FieldTrees(fs), head);
  }

  lemma FieldBuilt(s0: Store, s1: Store, n: Node, toks: seq<Token>, f: Field, b: nat)
    requires !f.Keyed? && (f.Named? ==> n.token < |toks| && f.name == toks[n.token].text)
    requires n == Node(TableFieldNode, Kind.EOF, n.token, NO_LINKS.(b := b), 0, if f.Named? then FIELD_NAMED else FIELD_ARRAY)
    requires Built(s0, s1, ExprTree(f.value), b)
    ensures Built(s0, AddCell(s1, Seen(n, toks)), FieldTree(f), |s1.cells| + 1)
  {
    hide Built, AddCell, ExprTree;
    ChildBuilt(s0, s1, Seen(n, toks).tag, B, ExprTree(f.value), b);
  }

  lemma KeyedBuilt(s0: Store, s1: Store, s2: Store, n: Node, toks: seq<Token>, k: Expr, a: nat, v: Expr, b: nat)
    requires n == Node(TableFieldNode, Kind.EOF, n.token, NO_LINKS.(a := a, b := b), 0, FIELD_INDEXED)
    requires Built(s0, s1, ExprTree(k), a) && Built(s1, s2, ExprTree(v), b)
    ensures Built(s0, AddCell(s2, Seen(n, toks)), FieldTree(Keyed(k, v)), |s2.cells| + 1)
  {
    hide Built, AddCell, ExprTree;
    ChildrenBuilt(s0, s1, s2, Tag(TableFieldNode, Kind.EOF, FIELD_INDEXED, ""), A, ExprTree(k), a, B, ExprTree(v), b);
  }

  lemma FunctionBuilt(s0: Store, s1: Store, s2: Store, n: Node, toks: seq<Token>, ps: seq<string>, head: nat, v: bool,
                      code: seq<Stmt>, first: nat)
    requires n == Node(FunctionNode, Kind.EOF, n.token, NO_LINKS.(list1 := head, a := first), 0, if v then 1 else 0)
    requires ListDone(s0, s1, NameTrees(ps), head) && ChainDone(s1, s2, StmtTrees(code), first)
    ensures Built(s0, AddCell(s2, Seen(n, toks)), ExprTree(FunctionLit(ps, v, code)), |s2.cells| + 1)
  {
    hide Built, ListDone, ChainDone, AddCell;
    ListChainBuilt(s0, s1, s2, Flagged(FunctionNode, v), NameTrees(ps), head, StmtTrees(code), first);
  }

  lemma CallStmtBuilt(s0: Store, s1: Store, n: Node, toks: seq<Token>, e: Expr, a: nat)
    requires n == Fresh(ExprStatementNode, n.token, NO_LINKS.(a := a)) && Built(s0, s1, ExprTree(e), a)
    ensures Built(s0, AddCell(s1, Seen(n, toks)), StmtTree(CallStmt(e)), |s1.cells| + 1)
  {
    hide Built, AddCell, ExprTree;
    ChildBuilt(s0, s1, Plain(ExprStatementNode), A, ExprTree(e), a);
  }

  lemma AssignBuilt(s0: Store, s1: Store, s2: Store, n: Node, toks: seq<Token>, ts: seq<Expr>, left: nat, vs: seq<Expr>, right: nat)
    requires n == Fresh(AssignNode, n.token, NO_LINKS.(list1 := left, list2 := right))
    requires ListDone(s0, s1, ExprTrees(ts), left) && ListDone(s1, s2, ExprTrees(vs), right)
    ensures Built(s0, AddCell(s2, Seen(n, toks)), StmtTree(Assign(ts, vs)), |s2.cells| + 1)
  {
    hide Built, ListDone, AddCell, ExprTrees;
    ListsBuilt(s0, s1, s2, Plain(AssignNode), ExprTrees(ts), left, ExprTrees(vs), right);
  }

  lemma LocalBuilt(s0: Store, s1: Store, s2: Store, n: Node, toks: seq<Token>, ns: seq<string>, left: nat, vs: seq<Expr>, right: nat)
    requires n == Fresh(LocalAssignNode, n.token, NO_LINKS.(list1 := left, list2 := right))
    requires ListDone(s0, s1, NameTrees(ns), left) && ListDone(s1, s2, ExprTrees(vs), right)
    ensures Built(s0, AddCell(s2, Seen(n, toks)), StmtTree(LocalAssign(ns, vs)), |s2.cells| + 1)
  {
    hide Built, ListDone, AddCell, ExprTrees, NameTrees;
    ListsBuilt(s0, s1, s2, Plain(LocalAssignNode), NameTrees(ns), left, ExprTrees(vs), right);
  }

  lemma LocalFunctionBuilt(s0: Store, s1: Store, n: Node, toks: seq<Token>, f: Expr, a: nat)
    requires n.token < |toks| && n == Fresh(LocalFunctionNode, n.token, NO_LINKS.(a := a)) && Built(s0, s1, ExprTree(f), a)
    ensures Built(s0, AddCell(s1, Seen(n, toks)), StmtTree(LocalFunction(toks[n.token].text, f)), |s1.cells| + 1)
  {
    hide Built, AddCell, ExprTree;
    ChildBuilt(s0, s1, Texted(LocalFunctionNode, toks[n.token].text), A, ExprTree(f), a);
  }

  lemma FunctionDeclBuilt(s0: Store, s1: Store, s2: Store, n: Node, toks: seq<Token>, t: Expr, a: nat, f: Expr, b: nat)
    requires n == Fresh(FunctionDeclNode, n.token, NO_LINKS.(a := a, b := b))
    requires Built(s0, s1, ExprTree(t), a) && Built(s1, s2, ExprTree(f), b)
    ensures Built(s0, AddCell(s2, Seen(n, toks)), StmtTree(FunctionDecl(t, f)), |s2.cells| + 1)
  {
    hide Built, AddCell, ExprTree;
    ChildrenBuilt(s0, s1, s2, Plain(FunctionDeclNode), A, ExprTree(t), a, B, ExprTree(f), b);
  }

  lemma ClauseBuilt(s0: Store, s1: Store, s2: Store, n: Node, toks: seq<Token>, arm: Arm, a: nat, b: nat)
    requires n == Fresh(IfClauseNode, n.token, NO_LINKS.(a := a, b := b))
    requires Built(s0, s1, ExprTree(arm.guard), a) && ChainDone(s1, s2, StmtTrees(arm.body), b)
    ensures Built(s0, AddCell(s2, Seen(n, toks)), ArmTree(arm), |s2.cells| + 1)
  {
    hide Built, ChainDone, AddCell, ExprTree, StmtTrees;
    ChildChainBuilt(s0, s1, s2, Plain(IfClauseNode), ExprTree(arm.guard), a, StmtTrees(arm.body), b);
  }

  lemma ElseBuilt(s0: Store, s1: Store, n: Node, toks: seq<Token>, last: seq<Stmt>, b: nat)
    requires n == Fresh(IfClauseNode, n.token, NO_LINKS.(b := b)) && ChainDone(s0, s1, StmtTrees(last), b)
    ensures Built(s0, AddCell(s1, Seen(n, toks)), ElseTree(last), |s1.cells| + 1)
  {
    hide Built, ChainDone, AddCell, StmtTrees;
    ChainOnlyBuilt(s0, s1, Plain(IfClauseNode), B, StmtTrees(last), b);
  }

  lemma IfStmtBuilt(s0: Store, s1: Store, n: Node, toks: seq<Token>, arms: seq<Arm>, hasElse: bool, last: seq<Stmt>,
                    head: nat, tail: nat)
    requires n == Fresh(IfNode, n.token, NO_LINKS.(list1 := head))
    requires ListBuilt(s0, s1, ArmTrees(arms) + ElseTrees(hasElse, last), head, tail)
    ensures Built(s0, AddCell(s1, Seen(n, toks)), StmtTree(IfStmt(arms, hasElse, last)), |s1.cells| + 1)
  {
    hide Built, ListBuilt, AddCell, ArmTrees, ElseTrees, StmtTree;
    IfBuilt(s0, s1, arms, hasElse, last, head, tail);
  }

  lemma WhileBuilt(s0: Store, s1: Store, s2: Store, n: Node, toks: seq<Token>, e: Expr, a: nat, body: seq<Stmt>, b: nat)
    requires n == Fresh(WhileNode, n.token, NO_LINKS.(a := a, b := b))
    requires Built(s0, s1, ExprTree(e), a) && ChainDone(s1, s2, StmtTrees(body), b)
    ensures Built(s0, AddCell(s2, Seen(n, toks)), StmtTree(WhileStmt(e, body)), |s2.cells| + 1)
  {
    hide Built, ChainDone, AddCell, ExprTree, StmtTrees;
    ChildChainBuilt(s0, s1, s2, Plain(WhileNode), ExprTree(e), a, StmtTrees(body), b);
  }

  /** The step of a numeric loop, if it has one. */
  ghost predicate StepBuilt(s0: Store, s1: Store, st: Option<Expr>, id: nat) {
    if st.Some? then Built(s0, s1, ExprTree(st.value), id) else s1 == s0 && id == 0
  }

  lemma ForNumericBuilt(s0: Store, s1: Store, s2: Store, s3: Store, s4: Store, n: Node, toks: seq<Token>, s: Stmt,
                        a: nat, b: nat, c: nat, d: nat)
    requires s.ForNumeric? && n.token < |toks| && s.counter == toks[n.token].text
    requires n == Fresh(ForNumericNode, n.token, NO_LINKS.(a := a, b := b, c := c, d := d))
    requires Built(s0, s1, ExprTree(s.first), a) && Built(s1, s2, ExprTree(s.last), b)
    requires StepBuilt(s2, s3, s.step, c) && ChainDone(s3, s4, StmtTrees(s.body), d)
    ensures Built(s0, AddCell(s4, Seen(n, toks)), StmtTree(s), |s4.cells| + 1)
  {
    hide Built, ChainDone, AddCell, ExprTree, StmtTrees;
    var step := if s.step.Some? then Some(ExprTree(s.step.value)) else None;
    assert OptionalPart(step) == StepParts(s.step);
    NumericBuilt(s0, s1, s2, s3, s4, Texted(ForNumericNode, s.counter), ExprTree(s.first), a, ExprTree(s.last), b, step, c,
                 StmtTrees(s.body), d);
  }

  lemma ForGenericBuilt(s0: Store, s1: Store, s2: Store, s3: Store, n: Node, toks: seq<Token>, s: Stmt,
                        names: nat, values: nat, body: nat)
    requires s.ForGeneric? && n == Fresh(ForGenericNode, n.token, NO_LINKS.(list1 := names, list2 := values, a := body))
    requires ListDone(s0, s1, NameTrees(s.names), names) && ListDone(s1, s2, ExprTrees(s.values), values)
    requires ChainDone(s2, s3, StmtTrees(s.body), body)
    ensures Built(s0, AddCell(s3, Seen(n, toks)), StmtTree(s), |s3.cells| + 1)
  {
    hide Built, ListDone, ChainDone, AddCell, ExprTrees, StmtTrees, NameTrees;
    GenericBuilt(s0, s1, s2, s3, Plain(ForGenericNode), NameTrees(s.names), names, ExprTrees(s.values), values,
                 StmtTrees(s.body), body);
  }

  lemma BreakBuilt(s: Store, n: Node, toks: seq<Token>)
    requires n == Fresh(BreakNode, n.token, NO_LINKS)
    ensures Built(s, AddCell(s, Seen(n, toks)), StmtTree(BreakStmt), |s.cells| + 1)
  {
    hide Built, AddCell;
    LeafBuilt(s, Plain(BreakNode));
  }

  lemma ReturnBuilt(s0: Store, s1: Store, n: Node, toks: seq<Token>, vs: seq<Expr>, head: nat)
    requires n == Fresh(ReturnNode, n.token, NO_LINKS.(list1 := head)) && ListDone(s0, s1, ExprTrees(vs), head)
    ensures Built(s0, AddCell(s1, Seen(n, toks)), StmtTree(ReturnStmt(vs)), |s1.cells| + 1)
  {
    hide Built, ListDone, AddCell, ExprTrees;
    ListOnlyBuilt(s0, s1, Plain(ReturnNode), ExprTrees(vs), head);
  }

  // ---- lists of phrases --------------------------------------------------------------------

  lemma FirstListed(s0: Store, s1: Store, e: Expr, id: nat)
    requires Built(s0, s1, ExprTree(e), id)
    ensures ListBuilt(s0, AddEntry(s1, 0, id), ExprTrees([e]), |s1.entries| + 1, |s1.entries| + 1)
  {
    hide Built, ListBuilt, AddEntry, ExprTree, ExprTrees;
    ListStarts(s0);
    ListGoesOn(s0, s0, s1, [], 0, 0, ExprTree(e), id);
    OneTree(e);
  }

  lemma OneTree(e: Expr)
    ensures ExprTrees([e]) == [] + [ExprTree(e)]
  {
    hide ExprTree;
  }

  lemma NextListed(s0: Store, s1: Store, s2: Store, es: seq<Expr>, head: nat, tail: nat, e: Expr, id: nat)
    requires ListBuilt(s0, s1, ExprTrees(es), head, tail) && Built(s1, s2, ExprTree(e), id)
    ensures ListBuilt(s0, AddEntry(s2, tail, id), ExprTrees(es + [e]), if tail == 0 then |s2.entries| + 1 else head, |s2.entries| + 1)
  {
    hide Built, ListBuilt, AddEntry, ExprTree, ExprTrees;
    ListGoesOn(s0, s1, s2, ExprTrees(es), head, tail, ExprTree(e), id);
    MoreTrees(es, e);
  }

  lemma NextField(s0: Store, s1: Store, s2: Store, fs: seq<Field>, head: nat, tail: nat, f: Field, id: nat)
    requires ListBuilt(s0, s1, FieldTrees(fs), head, tail) && Built(s1, s2, FieldTree(f), id)
    ensures ListBuilt(s0, AddEntry(s2, tail, id), FieldTrees(fs + [f]), if tail == 0 then |s2.entries| + 1 else head, |s2.entries| + 1)
  {
    hide Built, ListBuilt, AddEntry, FieldTree, FieldTrees;
    ListGoesOn(s0, s1, s2, FieldTrees(fs), head, tail, FieldTree(f), id);
    MoreFieldTrees(fs, f);
  }

  lemma NextName(s0: Store, s1: Store, s2: Store, ns: seq<string>, head: nat, tail: nat, n: string, id: nat)
    requires ListBuilt(s0, s1, NameTrees(ns), head, tail) && Built(s1, s2, NameTree(n), id)
    ensures ListBuilt(s0, AddEntry(s2, tail, id), NameTrees(ns + [n]), if tail == 0 then |s2.entries| + 1 else head, |s2.entries| + 1)
  {
    hide Built, ListBuilt, AddEntry, NameTree, NameTrees;
    ListGoesOn(s0, s1, s2, NameTrees(ns), head, tail, NameTree(n), id);
    MoreNameTrees(ns, n);
  }

  lemma NextClause(s0: Store, s1: Store, s2: Store, arms: seq<Arm>, head: nat, tail: nat, arm: Arm, id: nat)
    requires ListBuilt(s0, s1, ArmTrees(arms), head, tail) && Built(s1, s2, ArmTree(arm), id)
    ensures ListBuilt(s0, AddEntry(s2, tail, id), ArmTrees(arms + [arm]), if tail == 0 then |s2.entries| + 1 else head, |s2.entries| + 1)
  {
    hide Built, ListBuilt, AddEntry, ArmTree, ArmTrees;
    ListGoesOn(s0, s1, s2, ArmTrees(arms), head, tail, ArmTree(arm), id);
    MoreArmTrees(arms, arm);
  }

  lemma LastClause(s0: Store, s1: Store, s2: Store, arms: seq<Arm>, head: nat, tail: nat, last: seq<Stmt>, id: nat)
    requires ListBuilt(s0, s1, ArmTrees(arms), head, tail) && Built(s1, s2, ElseTree(last), id)
    ensures ListBuilt(s0, AddEntry(s2, tail, id), ArmTrees(arms) + ElseTrees(true, last),
                      if tail == 0 then |s2.entries| + 1 else head, |s2.entries| + 1)
  {
    hide Built, ListBuilt, AddEntry, ElseTree, ArmTrees;
    ListGoesOn(s0, s1, s2, ArmTrees(arms), head, tail, ElseTree(last), id);
    WithElse(arms, last);
  }

  lemma EmptyLists(s: Store)
    ensures ListBuilt(s, s, ExprTrees([]), 0, 0) && ListBuilt(s, s, FieldTrees([]), 0, 0)
    ensures ListBuilt(s, s, NameTrees([]), 0, 0) && ListBuilt(s, s, ArmTrees([]), 0, 0)
    ensures ChainBuilt(s, s, StmtTrees([]), 0, 0)
  {
    hide ListBuilt, ChainBuilt, ExprTree, StmtTree;
    NoTrees();
    ListStarts(s);
    ChainStarts(s);
  }
}
