/** What the executor finds in an arena that unfolds to a phrase: the node of each construct, the
    ids in its links, and what those unfold to. */
module Shapes {
  import opened Tokens
  import opened Syntax
  import opened Arena
  import opened Unfolding
  import opened Trees

  datatype Program = Program(cells: seq<Cell>, entries: seq<Entry>, root: nat)

  ghost predicate HoldsTree(p: Program, id: nat, t: Tree) { Unfolds(p.cells, p.entries, id, t) }

  ghost predicate HoldsExpr(p: Program, id: nat, e: Expr) { HoldsTree(p, id, ExprTree(e)) }

  ghost predicate HoldsStmt(p: Program, id: nat, s: Stmt) { HoldsTree(p, id, StmtTree(s)) }

  ghost predicate HoldsList(p: Program, link: nat, ks: seq<Tree>) { UnfoldsList(p.cells, p.entries, link, ks, 0) }

  ghost predicate HoldsChain(p: Program, link: nat, ks: seq<Tree>) { UnfoldsChain(p.cells, p.entries, link, ks, 0) }

  ghost predicate HoldsExprs(p: Program, link: nat, es: seq<Expr>) { HoldsList(p, link, ExprTrees(es)) }

  ghost predicate HoldsFields(p: Program, link: nat, fs: seq<Field>) { HoldsList(p, link, FieldTrees(fs)) }

  ghost predicate HoldsNames(p: Program, link: nat, ns: seq<string>) { HoldsList(p, link, NameTrees(ns)) }

  ghost predicate HoldsArms(p: Program, link: nat, arms: seq<Arm>, hasElse: bool, last: seq<Stmt>) {
    HoldsList(p, link, ArmTrees(arms) + ElseTrees(hasElse, last))
  }

  ghost predicate HoldsBlock(p: Program, link: nat, ss: seq<Stmt>) { HoldsChain(p, link, StmtTrees(ss)) }

  /** The node at an id; id 0 and ids beyond the arena have none. */
  predicate HasNode(p: Program, id: nat) { 0 < id <= |p.cells| }

  function NodeAt(p: Program, id: nat): Cell requires HasNode(p, id) { p.cells[id - 1] }

  predicate HasEntry(p: Program, id: nat) { 0 < id <= |p.entries| }

  function EntryAt(p: Program, id: nat): Entry requires HasEntry(p, id) { p.entries[id - 1] }

  /** The node of a tree, and the links its parts are reached by. */
  lemma NodeOf(p: Program, id: nat, t: Tree)
    requires HoldsTree(p, id, t)
    ensures HasNode(p, id) && NodeAt(p, id).tag == t.tag
  {
  }

  lemma PartAt(p: Program, id: nat, t: Tree, i: nat)
    requires HoldsTree(p, id, t) && i < |t.parts|
    ensures HasNode(p, id)
    ensures UnfoldsPart(p.cells, p.entries, Get(NodeAt(p, id).links, t.parts[i].slot), t.parts[i])
  {
  }

  lemma NoPart(p: Program, id: nat, t: Tree, s: Slot)
    requires HoldsTree(p, id, t) && Unused(t.parts, s)
    ensures HasNode(p, id) && Get(NodeAt(p, id).links, s) == 0
  {
  }

  // ---- lists and blocks --------------------------------------------------------------------

  lemma ListEmpty(p: Program, link: nat, ks: seq<Tree>)
    requires HoldsList(p, link, ks)
    ensures link == 0 <==> ks == []
  {
  }

  lemma ListNext(p: Program, link: nat, ks: seq<Tree>)
    requires HoldsList(p, link, ks) && ks != []
    ensures HasEntry(p, link) && HoldsTree(p, EntryAt(p, link).node, ks[0])
    ensures HoldsList(p, EntryAt(p, link).next, ks[1..])
  {
  }

  lemma ChainEmpty(p: Program, link: nat, ks: seq<Tree>)
    requires HoldsChain(p, link, ks)
    ensures link == 0 <==> ks == []
  {
    if ks != [] {
      assert Unfolds(p.cells, p.entries, link, ks[0]);
    }
  }

  lemma ChainNext(p: Program, link: nat, ks: seq<Tree>)
    requires HoldsChain(p, link, ks) && ks != []
    ensures HasNode(p, link) && HoldsTree(p, link, ks[0]) && HoldsChain(p, NodeAt(p, link).next, ks[1..])
  {
    assert Unfolds(p.cells, p.entries, link, ks[0]);
  }

  lemma ExprsEmpty(p: Program, link: nat, es: seq<Expr>)
    requires HoldsExprs(p, link, es)
    ensures link == 0 <==> es == []
  {
    hide ExprTree;
    ListEmpty(p, link, ExprTrees(es));
  }

  lemma ExprsNext(p: Program, link: nat, es: seq<Expr>)
    requires HoldsExprs(p, link, es) && es != []
    ensures HasEntry(p, link) && HoldsExpr(p, EntryAt(p, link).node, es[0])
    ensures HoldsExprs(p, EntryAt(p, link).next, es[1..])
  {
    hide ExprTree, HoldsTree, HoldsList;
    ListNext(p, link, ExprTrees(es));
    assert ExprTrees(es)[1..] == ExprTrees(es[1..]);
  }

  lemma FieldsEmpty(p: Program, link: nat, fs: seq<Field>)
    requires HoldsFields(p, link, fs)
    ensures link == 0 <==> fs == []
  {
    hide FieldTree;
    ListEmpty(p, link, FieldTrees(fs));
  }

  lemma FieldsNext(p: Program, link: nat, fs: seq<Field>)
    requires HoldsFields(p, link, fs) && fs != []
    ensures HasEntry(p, link) && HoldsTree(p, EntryAt(p, link).node, FieldTree(fs[0]))
    ensures HoldsFields(p, EntryAt(p, link).next, fs[1..])
  {
    hide FieldTree, HoldsTree, HoldsList;
    ListNext(p, link, FieldTrees(fs));
    assert FieldTrees(fs)[1..] == FieldTrees(fs[1..]);
  }

  lemma NamesEmpty(p: Program, link: nat, ns: seq<string>)
    requires HoldsNames(p, link, ns)
    ensures link == 0 <==> ns == []
  {
    hide NameTree;
    ListEmpty(p, link, NameTrees(ns));
  }

  lemma NamesNext(p: Program, link: nat, ns: seq<string>)
    requires HoldsNames(p, link, ns) && ns != []
    ensures HasEntry(p, link) && HasNode(p, EntryAt(p, link).node)
    ensures NodeAt(p, EntryAt(p, link).node).tag == Texted(VariableNode, ns[0])
    ensures HoldsNames(p, EntryAt(p, link).next, ns[1..])
  {
    hide HoldsTree, HoldsList;
    ListNext(p, link, NameTrees(ns));
    NodeOf(p, EntryAt(p, link).node, NameTree(ns[0]));
    assert NameTrees(ns)[1..] == NameTrees(ns[1..]);
  }

  lemma BlockEmpty(p: Program, link: nat, ss: seq<Stmt>)
    requires HoldsBlock(p, link, ss)
    ensures link == 0 <==> ss == []
  {
    hide StmtTree;
    ChainEmpty(p, link, StmtTrees(ss));
  }

  lemma BlockNext(p: Program, link: nat, ss: seq<Stmt>)
    requires HoldsBlock(p, link, ss) && ss != []
    ensures HasNode(p, link) && HoldsStmt(p, link, ss[0]) && HoldsBlock(p, NodeAt(p, link).next, ss[1..])
  {
    hide StmtTree, HoldsTree, HoldsChain;
    ChainNext(p, link, StmtTrees(ss));
    assert StmtTrees(ss)[1..] == StmtTrees(ss[1..]);
  }

  // ---- expressions -------------------------------------------------------------------------

  lemma ExprNode(p: Program, id: nat, e: Expr)
    requires HoldsExpr(p, id, e)
    ensures HasNode(p, id) && NodeAt(p, id).tag == ExprTree(e).tag
  {
    hide HoldsTree;
    NodeOf(p, id, ExprTree(e));
  }

  lemma UnaryAt(p: Program, id: nat, e: Expr)
    requires HoldsExpr(p, id, e) && e.Unary?
    ensures HasNode(p, id)
    ensures var k := NodeAt(p, id).links; HoldsExpr(p, k.a, e.operand)
  {
    PartAt(p, id, ExprTree(e), 0);
  }

  lemma BinaryAt(p: Program, id: nat, e: Expr)
    requires HoldsExpr(p, id, e) && e.Binary?
    ensures HasNode(p, id)
    ensures var k := NodeAt(p, id).links; HoldsExpr(p, k.a, e.left) && HoldsExpr(p, k.b, e.right)
  {
    PartAt(p, id, ExprTree(e), 0);
    PartAt(p, id, ExprTree(e), 1);
  }

  lemma MemberAt(p: Program, id: nat, e: Expr)
    requires HoldsExpr(p, id, e) && e.Member?
    ensures HasNode(p, id)
    ensures var k := NodeAt(p, id).links; HoldsExpr(p, k.a, e.base)
  {
    PartAt(p, id, ExprTree(e), 0);
  }

  lemma IndexAt(p: Program, id: nat, e: Expr)
    requires HoldsExpr(p, id, e) && e.Index?
    ensures HasNode(p, id)
    ensures var k := NodeAt(p, id).links; HoldsExpr(p, k.a, e.base) && HoldsExpr(p, k.b, e.key)
  {
    PartAt(p, id, ExprTree(e), 0);
    PartAt(p, id, ExprTree(e), 1);
  }

  lemma CallAt(p: Program, id: nat, e: Expr)
    requires HoldsExpr(p, id, e) && e.Call?
    ensures HasNode(p, id)
    ensures var k := NodeAt(p, id).links; HoldsExpr(p, k.a, e.callee) && HoldsExprs(p, k.list1, e.args)
  {
    PartAt(p, id, ExprTree(e), 0);
    PartAt(p, id, ExprTree(e), 1);
  }

  lemma TableAt(p: Program, id: nat, e: Expr)
    requires HoldsExpr(p, id, e) && e.TableLit?
    ensures HasNode(p, id)
    ensures var k := NodeAt(p, id).links; HoldsFields(p, k.list1, e.fields)
  {
    PartAt(p, id, ExprTree(e), 0);
  }

  lemma FunctionAt(p: Program, id: nat, e: Expr)
    requires HoldsExpr(p, id, e) && e.FunctionLit?
    ensures HasNode(p, id)
    ensures var k := NodeAt(p, id).links; HoldsNames(p, k.list1, e.params) && HoldsBlock(p, k.a, e.code)
  {
    PartAt(p, id, ExprTree(e), 0);
    PartAt(p, id, ExprTree(e), 1);
  }

  lemma FieldAt(p: Program, id: nat, f: Field)
    requires HoldsTree(p, id, FieldTree(f))
    ensures HasNode(p, id) && NodeAt(p, id).tag == FieldTree(f).tag
    ensures HoldsExpr(p, NodeAt(p, id).links.b, f.value)
    ensures f.Keyed? ==> HoldsExpr(p, NodeAt(p, id).links.a, f.key)
  {
    NodeOf(p, id, FieldTree(f));
    PartAt(p, id, FieldTree(f), 0);
    if f.Keyed? {
      PartAt(p, id, FieldTree(f), 1);
    }
  }

  // ---- statements --------------------------------------------------------------------------

  lemma StmtNode(p: Program, id: nat, s: Stmt)
    requires HoldsStmt(p, id, s)
    ensures HasNode(p, id) && NodeAt(p, id).tag == StmtTree(s).tag
  {
    hide HoldsTree;
    NodeOf(p, id, StmtTree(s));
  }

  lemma CallStmtAt(p: Program, id: nat, s: Stmt)
    requires HoldsStmt(p, id, s) && s.CallStmt?
    ensures HasNode(p, id)
    ensures var k := NodeAt(p, id).links; HoldsExpr(p, k.a, s.call)
  {
    PartAt(p, id, StmtTree(s), 0);
  }

  lemma AssignAt(p: Program, id: nat, s: Stmt)
    requires HoldsStmt(p, id, s) && s.Assign?
    ensures HasNode(p, id)
    ensures var k := NodeAt(p, id).links; HoldsExprs(p, k.list1, s.targets) && HoldsExprs(p, k.list2, s.values)
  {
    PartAt(p, id, StmtTree(s), 0);
    PartAt(p, id, StmtTree(s), 1);
  }

  lemma LocalAt(p: Program, id: nat, s: Stmt)
    requires HoldsStmt(p, id, s) && s.LocalAssign?
    ensures HasNode(p, id)
    ensures var k := NodeAt(p, id).links; HoldsNames(p, k.list1, s.names) && HoldsExprs(p, k.list2, s.values)
  {
    PartAt(p, id, StmtTree(s), 0);
    PartAt(p, id, StmtTree(s), 1);
  }

  lemma IfAt(p: Program, id: nat, s: Stmt)
    requires HoldsStmt(p, id, s) && s.IfStmt?
    ensures HasNode(p, id)
    ensures var k := NodeAt(p, id).links; HoldsArms(p, k.list1, s.arms, s.hasElse, s.otherwise)
  {
    PartAt(p, id, StmtTree(s), 0);
  }

  lemma WhileAt(p: Program, id: nat, s: Stmt)
    requires HoldsStmt(p, id, s) && s.WhileStmt?
    ensures HasNode(p, id)
    ensures var k := NodeAt(p, id).links; HoldsExpr(p, k.a, s.cond) && HoldsBlock(p, k.b, s.body)
  {
    PartAt(p, id, StmtTree(s), 0);
    PartAt(p, id, StmtTree(s), 1);
  }

  ghost predicate HoldsStep(p: Program, link: nat, st: Option<Expr>) {
    if st.Some? then link != 0 && HoldsExpr(p, link, st.value) else link == 0
  }

  lemma ForNumericAt(p: Program, id: nat, s: Stmt)
    requires HoldsStmt(p, id, s) && s.ForNumeric?
    ensures HasNode(p, id) && NodeAt(p, id).tag.text == s.counter
    ensures var k := NodeAt(p, id).links;
      HoldsExpr(p, k.a, s.first) && HoldsExpr(p, k.b, s.last) && HoldsStep(p, k.c, s.step) && HoldsBlock(p, k.d, s.body)
  {
    hide ExprTree, StmtTrees;
    var t := StmtTree(s);
    var a, b, d := Child(A, ExprTree(s.first)), Child(B, ExprTree(s.last)), Chained(D, StmtTrees(s.body));
    assert t.parts == [a, b] + StepParts(s.step) + [d];
    if s.step.Some? {
      assert t.parts == [a, b, Child(C, ExprTree(s.step.value)), d];
    } else {
      assert t.parts == [a, b, d];
    }
    PartAt(p, id, t, 0);
    PartAt(p, id, t, 1);
    PartAt(p, id, t, 2);
    if s.step.Some? {
      PartAt(p, id, t, 3);
      NodeOf(p, NodeAt(p, id).links.c, ExprTree(s.step.value));
    } else {
      NoPart(p, id, t, C);
    }
  }

  lemma ForGenericAt(p: Program, id: nat, s: Stmt)
    requires HoldsStmt(p, id, s) && s.ForGeneric?
    ensures HasNode(p, id)
    ensures var k := NodeAt(p, id).links; HoldsNames(p, k.list1, s.names) && HoldsExprs(p, k.list2, s.values) && HoldsBlock(p, k.a, s.body)
  {
    PartAt(p, id, StmtTree(s), 0);
    PartAt(p, id, StmtTree(s), 1);
    PartAt(p, id, StmtTree(s), 2);
  }

  lemma ReturnAt(p: Program, id: nat, s: Stmt)
    requires HoldsStmt(p, id, s) && s.ReturnStmt?
    ensures HasNode(p, id)
    ensures var k := NodeAt(p, id).links; HoldsExprs(p, k.list1, s.values)
  {
    PartAt(p, id, StmtTree(s), 0);
  }

  lemma FunctionDeclAt(p: Program, id: nat, s: Stmt)
    requires HoldsStmt(p, id, s) && s.FunctionDecl?
    ensures HasNode(p, id)
    ensures var k := NodeAt(p, id).links; HoldsExpr(p, k.a, s.target) && HoldsExpr(p, k.b, s.func)
  {
    PartAt(p, id, StmtTree(s), 0);
    PartAt(p, id, StmtTree(s), 1);
  }

  lemma LocalFunctionAt(p: Program, id: nat, s: Stmt)
    requires HoldsStmt(p, id, s) && s.LocalFunction?
    ensures HasNode(p, id)
    ensures var k := NodeAt(p, id).links; HoldsExpr(p, k.a, s.func)
  {
    PartAt(p, id, StmtTree(s), 0);
  }

  /** The next clause of an if statement; the clause of `else` has no condition. */
  lemma ArmsNext(p: Program, link: nat, arms: seq<Arm>, hasElse: bool, last: seq<Stmt>)
    requires HoldsArms(p, link, arms, hasElse, last)
    ensures link == 0 <==> arms == [] && !hasElse
    ensures link != 0 ==> HasEntry(p, link) && HasNode(p, EntryAt(p, link).node)
    ensures link != 0 ==> NodeAt(p, EntryAt(p, link).node).tag == Plain(IfClauseNode)
    ensures link != 0 && arms != [] ==>
      var k := NodeAt(p, EntryAt(p, link).node).links;
      k.a != 0 && HoldsExpr(p, k.a, arms[0].guard) && HoldsBlock(p, k.b, arms[0].body)
      && HoldsArms(p, EntryAt(p, link).next, arms[1..], hasElse, last)
    ensures link != 0 && arms == [] ==>
      NodeAt(p, EntryAt(p, link).node).links.a == 0 && HoldsBlock(p, NodeAt(p, EntryAt(p, link).node).links.b, last)
  {
    hide ExprTree, StmtTrees;
    var ks := ArmTrees(arms) + ElseTrees(hasElse, last);
    ListEmpty(p, link, ks);
    if ks != [] {
      ListNext(p, link, ks);
      var id := EntryAt(p, link).node;
      assert ks[0] == if arms != [] then ArmTree(arms[0]) else ElseTree(last);
      NodeOf(p, id, ks[0]);
      PartAt(p, id, ks[0], 0);
      if arms != [] {
        PartAt(p, id, ks[0], 1);
        NodeOf(p, NodeAt(p, id).links.a, ExprTree(arms[0].guard));
        assert ks[1..] == ArmTrees(arms[1..]) + ElseTrees(hasElse, last);
      } else {
        NoPart(p, id, ks[0], A);
      }
    }
  }
}
