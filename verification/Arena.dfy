/** The index-based syntax arena: how a tree is laid out in it, and that the layout is a tree.

    A tree is described uniformly: a node with its own data and the parts that hang off its link
    fields. A part is a single child, a list threaded through list entries, or a block of
    statements chained through the `next` field of their nodes. */
module Arena {
  import opened Tokens

  datatype AstKind =
    | NilNode | BooleanNode | NumberNode | StringNode | VariableNode | VarargNode | TableNode
    | TableFieldNode | FunctionNode | UnaryNode | BinaryNode | FieldNode | IndexNode | CallNode
    | ExprStatementNode | AssignNode | LocalAssignNode | IfNode | IfClauseNode | WhileNode
    | ForNumericNode | ForGenericNode | BreakNode | ReturnNode | FunctionDeclNode | LocalFunctionNode

  /** The link fields of a node other than `next`; 0 is "none". */
  datatype Links = Links(a: nat, b: nat, c: nat, d: nat, list1: nat, list2: nat)

  const NO_LINKS := Links(0, 0, 0, 0, 0, 0)

  datatype Slot = A | B | C | D | List1 | List2

  function Get(k: Links, s: Slot): nat {
    match s
    case A => k.a case B => k.b case C => k.c case D => k.d case List1 => k.list1 case List2 => k.list2
  }

  function Put(k: Links, s: Slot, v: nat): Links {
    match s
    case A => k.(a := v) case B => k.(b := v) case C => k.(c := v) case D => k.(d := v)
    case List1 => k.(list1 := v) case List2 => k.(list2 := v)
  }

  /** What a node says by itself: its kind, operator, flags and the text of its payload token. */
  datatype Tag = Tag(kind: AstKind, op: Kind, flags: nat, text: string)

  /** A node of the arena; node ids are positions counted from 1. */
  datatype Cell = Cell(tag: Tag, links: Links, next: nat)

  datatype Entry = Entry(node: nat, next: nat)

  datatype Tree = Tree(tag: Tag, parts: seq<Part>)

  datatype Part =
    | Child(slot: Slot, kid: Tree)
    | Listed(slot: Slot, kids: seq<Tree>)
    | Chained(slot: Slot, kids: seq<Tree>)

  function Front<T>(s: seq<T>): seq<T> requires s != [] { s[..|s| - 1] }

  function Last<T>(s: seq<T>): T requires s != [] { s[|s| - 1] }

  // ---- sizes -------------------------------------------------------------------------------

  function Nodes(t: Tree): (r: nat)
    ensures r >= 1
    decreases t, 0
  {
    PartsNodes(t.parts) + 1
  }

  function Entries(t: Tree): nat
    decreases t, 0
  {
    PartsEntries(t.parts)
  }

  function PartsNodes(ps: seq<Part>): nat
    decreases ps, 0
  {
    if ps == [] then 0 else PartsNodes(Front(ps)) + PartNodes(Last(ps))
  }

  function PartsEntries(ps: seq<Part>): nat
    decreases ps, 0
  {
    if ps == [] then 0 else PartsEntries(Front(ps)) + PartEntries(Last(ps))
  }

  function PartNodes(p: Part): nat
    decreases p, 0
  {
    match p
    case Child(_, t) => Nodes(t)
    case Listed(_, ks) => KidsNodes(ks)
    case Chained(_, ks) => KidsNodes(ks)
  }

  function PartEntries(p: Part): nat
    decreases p, 0
  {
    match p
    case Child(_, t) => Entries(t)
    case Listed(_, ks) => KidsEntries(ks) + |ks|
    case Chained(_, ks) => KidsEntries(ks)
  }

  function KidsNodes(ks: seq<Tree>): nat
    decreases ks, 0
  {
    if ks == [] then 0 else KidsNodes(Front(ks)) + Nodes(Last(ks))
  }

  function KidsEntries(ks: seq<Tree>): nat
    decreases ks, 0
  {
    if ks == [] then 0 else KidsEntries(Front(ks)) + Entries(Last(ks))
  }

  // ---- layout ------------------------------------------------------------------------------

  /** A table constructor is allocated before its fields, every other node after its parts. */
  predicate Early(t: Tree) { t.tag.kind == TableNode }

  /** The id of t's own node when n nodes precede it. */
  function Root(t: Tree, n: nat): (id: nat)
    ensures n < id <= n + Nodes(t)
  {
    if Early(t) then n + 1 else n + Nodes(t)
  }

  /** How many nodes precede the parts of t. */
  function Inside(t: Tree, n: nat): nat { if Early(t) then n + 1 else n }

  /** The nodes of t when n nodes and l list entries precede it. */
  function CellsOf(t: Tree, n: nat, l: nat, next: nat): (r: seq<Cell>)
    ensures |r| == Nodes(t)
    decreases t, 0
  {
    var root := [Cell(t.tag, LinksOf(t.parts, Inside(t, n), l), next)];
    if Early(t) then root + PartsCells(t.parts, n + 1, l) else PartsCells(t.parts, n, l) + root
  }

  function EntriesOf(t: Tree, n: nat, l: nat): (r: seq<Entry>)
    ensures |r| == Entries(t)
    decreases t, 0
  {
    PartsEntriesOf(t.parts, Inside(t, n), l)
  }

  function LinksOf(ps: seq<Part>, n: nat, l: nat): Links
    decreases ps, 0
  {
    if ps == [] then NO_LINKS
    else
      var front, p := Front(ps), Last(ps);
      Put(LinksOf(front, n, l), p.slot, LinkOf(p, n + PartsNodes(front), l + PartsEntries(front)))
  }

  /** The id stored in the slot of a part. */
  function LinkOf(p: Part, n: nat, l: nat): nat {
    match p
    case Child(_, t) => Root(t, n)
    case Listed(_, ks) => ListHead(ks, l)
    case Chained(_, ks) => ChainHead(ks, n)
  }

  function ListHead(ks: seq<Tree>, l: nat): nat { if ks == [] then 0 else l + Entries(ks[0]) + 1 }

  function ChainHead(ks: seq<Tree>, n: nat): nat { if ks == [] then 0 else Root(ks[0], n) }

  function PartsCells(ps: seq<Part>, n: nat, l: nat): (r: seq<Cell>)
    ensures |r| == PartsNodes(ps)
    decreases ps, 0
  {
    if ps == [] then []
    else
      var front, p := Front(ps), Last(ps);
      PartsCells(front, n, l) + PartCells(p, n + PartsNodes(front), l + PartsEntries(front))
  }

  function PartsEntriesOf(ps: seq<Part>, n: nat, l: nat): (r: seq<Entry>)
    ensures |r| == PartsEntries(ps)
    decreases ps, 0
  {
    if ps == [] then []
    else
      var front, p := Front(ps), Last(ps);
      PartsEntriesOf(front, n, l) + PartEntriesOf(p, n + PartsNodes(front), l + PartsEntries(front))
  }

  function PartCells(p: Part, n: nat, l: nat): (r: seq<Cell>)
    ensures |r| == PartNodes(p)
    decreases p, 0
  {
    match p
    case Child(_, t) => CellsOf(t, n, l, 0)
    case Listed(_, ks) => ListCells(ks, n, l)
    case Chained(_, ks) => ChainCells(ks, n, l, 0)
  }

  function PartEntriesOf(p: Part, n: nat, l: nat): (r: seq<Entry>)
    ensures |r| == PartEntries(p)
    decreases p, 0
  {
    match p
    case Child(_, t) => EntriesOf(t, n, l)
    case Listed(_, ks) => ListEntries(ks, n, l, 0)
    case Chained(_, ks) => ChainEntries(ks, n, l)
  }

  /** The id of the last entry of a list when l entries precede it. */
  function LastEntry(ks: seq<Tree>, l: nat): nat { l + KidsEntries(ks) + |ks| }

  function ListCells(ks: seq<Tree>, n: nat, l: nat): (r: seq<Cell>)
    ensures |r| == KidsNodes(ks)
    decreases ks, 0
  {
    if ks == [] then []
    else
      var front := Front(ks);
      ListCells(front, n, l)
      + CellsOf(Last(ks), n + KidsNodes(front), LastEntry(front, l), 0)
  }

  /** Each element's entry is allocated right after the element; the last one points to `next`. */
  function ListEntries(ks: seq<Tree>, n: nat, l: nat, next: nat): (r: seq<Entry>)
    ensures |r| == KidsEntries(ks) + |ks|
    decreases ks, 0
  {
    if ks == [] then []
    else
      var front, k := Front(ks), Last(ks);
      ListEntries(front, n, l, LastEntry(ks, l))
      + (EntriesOf(k, n + KidsNodes(front), LastEntry(front, l))
         + [Entry(Root(k, n + KidsNodes(front)), next)])
  }

  /** Each statement's node points to the node of the statement after it, the last one to `next`. */
  function ChainCells(ks: seq<Tree>, n: nat, l: nat, next: nat): (r: seq<Cell>)
    ensures |r| == KidsNodes(ks)
    decreases ks, 0
  {
    if ks == [] then []
    else
      var front, k := Front(ks), Last(ks);
      ChainCells(front, n, l, Root(k, n + KidsNodes(front)))
      + CellsOf(k, n + KidsNodes(front), l + KidsEntries(front), next)
  }

  function ChainEntries(ks: seq<Tree>, n: nat, l: nat): (r: seq<Entry>)
    ensures |r| == KidsEntries(ks)
    decreases ks, 0
  {
    if ks == [] then []
    else
      var front, k := Front(ks), Last(ks);
      ChainEntries(front, n, l) + EntriesOf(k, n + KidsNodes(front), l + KidsEntries(front))
  }
}
