/** The recursive-descent parser: it advances through the tokens, appends nodes and list entries
    to the arena and patches links, and it builds exactly the layout of what the grammar reads. */
module Parsing {
  import opened Tokens
  import opened Syntax
  import opened Grammar
  import opened GrammarSteps
  import opened ParserSteps
  import opened Arena
  import opened Building
  import opened Trees

  const NODE_LIMIT: nat := 131072
  const LIST_LIMIT: nat := 262144

  /** The two arenas never outgrow their limits. */
  type NodeArena = s: seq<Node> | |s| <= NODE_LIMIT
  type ListArena = s: seq<Entry> | |s| <= LIST_LIMIT
  type NodeCap = n: nat | n <= NODE_LIMIT
  type ListCap = n: nat | n <= LIST_LIMIT

  class Parser {
    const tokens: seq<Token>
    const nodeCap: NodeCap
    const listCap: ListCap
    var current: nat
    var loopDepth: nat
    var varargAllowed: bool
    var nodes: NodeArena
    var lists: ListArena

    /** The arenas may hold at most the limits, or less if memory runs out sooner. */
    constructor (tokens: seq<Token>, nodeCap: NodeCap, listCap: ListCap)
      ensures this.tokens == tokens && this.nodeCap == nodeCap && this.listCap == listCap
      ensures Rest() == tokens && Now() == EMPTY && Scope() == Ctx(false, false)
    {
      this.tokens, this.nodeCap, this.listCap := tokens, nodeCap, listCap;
      current, loopDepth, varargAllowed, nodes, lists := 0, 0, false, [], [];
    }

    function Rest(): seq<Token>
      reads `current
    {
      if current <= |tokens| then tokens[current..] else []
    }

    /** How many tokens are left. */
    function Left(): nat
      reads `current
    {
      if current <= |tokens| then |tokens| - current else 0
    }

    function Scope(): Ctx
      reads `loopDepth, `varargAllowed
    {
      Ctx(loopDepth > 0, varargAllowed)
    }

    /** The arena with payload texts in place of token indices. */
    ghost function Now(): Store
      reads `nodes, `lists
    {
      Store(Abstract(nodes, tokens), lists)
    }

    /** The scope is as it was, and the tokens read since pay for what has been allocated since. */
    twostate predicate Kept()
      reads this
    {
      Unmoved() && Owes(0, 0)
    }

    twostate predicate Unmoved()
      reads this
    {
      loopDepth == old(loopDepth) && varargAllowed == old(varargAllowed) && Left() <= old(Left())
    }

    /** Each token pays for two nodes and one list entry; at most so many have been allocated since
        that are not paid for. */
    twostate predicate Owes(n: int, l: int)
      reads this
    {
      |nodes| + 2 * Left() <= old(|nodes| + 2 * Left()) + n && |lists| + Left() <= old(|lists| + Left()) + l
    }

    predicate Full()
      reads `nodes, `lists
    {
      |nodes| >= nodeCap || |lists| >= listCap
    }

    predicate AtEnd()
      reads `current
      ensures AtEnd() == (Rest() == [])
    {
      current >= |tokens|
    }

    /** The kind of the current token. */
    function Look(): Kind
      requires !AtEnd()
      reads `current
      ensures Rest() != [] && Rest()[0] == tokens[current] && Look() == Rest()[0].kind
    {
      tokens[current].kind
    }

    predicate Check(kind: Kind)
      reads `current
      ensures Check(kind) == Starts(Rest(), kind)
      ensures Check(kind) ==> current < |tokens| && Rest() != [] && Rest()[0] == tokens[current]
    {
      current < |tokens| && tokens[current].kind == kind
    }

    /** Is the token after the current one of this kind? */
    predicate NextIs(kind: Kind)
      requires !AtEnd()
      reads `current
      ensures NextIs(kind) == Starts(Rest()[1..], kind)
    {
      current + 1 < |tokens| && tokens[current + 1].kind == kind
    }

    method Advance()
      requires current < |tokens|
      modifies `current
      ensures Rest() == old(Rest())[1..] && Left() == old(Left()) - 1
      ensures current == old(current) + 1
    {
      current := current + 1;
    }

    /** Pass `name =`. */
    method PassName()
      requires Check(Identifier) && NextIs(Equal)
      modifies `current
      ensures Rest() == old(Rest())[1..][1..] && Left() == old(Left()) - 2
    {
      current := current + 2;
    }

    method Match(kind: Kind) returns (ok: bool)
      modifies `current
      ensures ok == Starts(old(Rest()), kind)
      ensures Rest() == if ok then old(Rest())[1..] else old(Rest())
      ensures Left() == old(Left()) - if ok then 1 else 0
    {
      ok := Check(kind);
      if ok {
        current := current + 1;
      }
    }

    method NewNode(n: Node) returns (ok: bool, id: nat)
      requires n.next == 0
      modifies `nodes
      ensures ok ==> Now() == AddCell(old(Now()), Seen(n, tokens)) && id == |old(Now()).cells| + 1
      ensures |nodes| == |old(nodes)| + if ok then 1 else 0
      ensures !ok ==> Full()
    {
      if |nodes| >= nodeCap { return false, 0; }
      nodes := nodes + [n];
      id := |nodes|;
      ok := true;
      assert Now().cells == old(Now()).cells + [Seen(n, tokens)];
    }

    /** A new entry for `node` at the end of the list from `head` to `tail`. */
    method Append(head: nat, tail: nat, node: nat) returns (ok: bool, head': nat, tail': nat)
      modifies `lists
      ensures ok ==> Now() == AddEntry(old(Now()), tail, node) && tail' == |old(Now()).entries| + 1
      ensures ok ==> head' == if tail == 0 then tail' else head
      ensures |lists| == |old(lists)| + if ok then 1 else 0
      ensures !ok ==> Full()
    {
      if |lists| >= listCap { return false, head, tail; }
      tail' := |lists| + 1;
      head' := if tail == 0 then tail' else head;
      if 0 < tail <= |lists| {
        lists := lists[tail - 1 := lists[tail - 1].(next := tail')];
      }
      lists := lists + [Entry(node, 0)];
      ok := true;
    }

    method Link(last: nat, statement: nat)
      modifies `nodes
      ensures Now() == LinkCell(old(Now()), last, statement) && |nodes| == |old(nodes)|
    {
      if 0 < last <= |nodes| {
        nodes := nodes[last - 1 := nodes[last - 1].(next := statement)];
      }
      assert Now().cells == LinkCell(old(Now()), last, statement).cells;
    }

    method SetFirstList(id: nat, head: nat)
      modifies `nodes
      ensures Now() == SetList(old(Now()), id, head) && |nodes| == |old(nodes)|
    {
      if 0 < id <= |nodes| {
        nodes := nodes[id - 1 := nodes[id - 1].(links := nodes[id - 1].links.(list1 := head))];
      }
      assert Now().cells == SetList(old(Now()), id, head).cells;
    }

    // ---- expressions -----------------------------------------------------------------------

    method Expression(m: nat) returns (ok: bool, id: nat, ghost e: Expr)
      modifies this
      ensures Kept()
      ensures ok ==> Owes(-1, -1)
      ensures Reads(ParseExpr(old(Rest()), m, old(Scope())), ok, e, Rest(), Full())
      ensures ok ==> Built(old(Now()), Now(), ExprTree(e), id) && Left() < old(Left())
      decreases Left(), 5
    {
      hide ParseExpr, BinaryLoop, ParsePrefix, ExprTree, ExprOk, Precedence, RightLevel, Built, Now, AddCell, Seen, Full, Rest, Left, Starts;
      ghost var s0, c := Now(), Scope();
      ExprStep(Rest(), m, c);
      ok, id, e := Prefix();
      var more := true;
      while ok && more
        invariant Kept() && (ok ==> Left() < old(Left()) && Owes(-1, -1))
        invariant Goes(ParseExpr(old(Rest()), m, c), ok, if more then BinaryLoop(Rest(), m, e, c) else Ok(e, Rest()), Full())
        invariant ok ==> Built(s0, Now(), ExprTree(e), id)
        decreases ok, more, Left()
      {
        if AtEnd() || Precedence(Look()) < m || Precedence(Look()) == 0 {
          BinaryDone(Rest(), m, e, c);
          more := false;
        } else {
          var op, opToken := Look(), current;
          ghost var s1 := Now();
          BinaryStep(Rest(), m, e, c);
          Advance();
          var right;
          ghost var r;
          ok, right, r := Expression(RightLevel(op));
          if ok {
            var n := Node(BinaryNode, op, opToken, NO_LINKS.(a := id, b := right), 0, 0);
            BinaryBuilt(s0, s1, Now(), n, tokens, e, id, r, right);
            ok, id := NewNode(n);
            e := Binary(op, e, r);
          }
        }
      }
    }

    method Prefix() returns (ok: bool, id: nat, ghost e: Expr)
      modifies this
      ensures Kept()
      ensures ok ==> Owes(-1, -1)
      ensures Reads(ParsePrefix(old(Rest()), old(Scope())), ok, e, Rest(), Full())
      ensures ok ==> Built(old(Now()), Now(), ExprTree(e), id) && Left() < old(Left())
      decreases Left(), 4
    {
      hide ParseExpr, ParsePrefix, ParsePrimary, ExprTree, ExprOk, Built, Now, AddCell, Seen, Full, Rest, Left, Starts;
      ok, id, e := false, 0, NilLit;
      ghost var s0 := Now();
      PrefixStep(Rest(), Scope());
      if !AtEnd() {
        var op, opToken := Look(), current;
        if IsUnaryOp(op) {
          Advance();
          var operand;
          ghost var o;
          ok, operand, o := Expression(UNARY_LEVEL);
          if ok {
            var n := Node(UnaryNode, op, opToken, NO_LINKS.(a := operand), 0, 0);
            UnaryBuilt(s0, Now(), n, tokens, o, operand);
            ok, id := NewNode(n);
            e := Unary(op, o);
          }
        } else {
          ok, id, e := Primary();
        }
      }
    }

    method Primary() returns (ok: bool, id: nat, ghost e: Expr)
      modifies this
      ensures Kept()
      ensures ok ==> Owes(-1, -1)
      ensures Reads(ParsePrimary(old(Rest()), old(Scope())), ok, e, Rest(), Full())
      ensures ok ==> Built(old(Now()), Now(), ExprTree(e), id) && Left() < old(Left())
      decreases Left(), 3
    {
      hide ParsePrimary, ParseAtom, PostfixLoop, ExprTree, ExprOk, Built, Now, AddCell, Seen, Full, Rest, Left, Starts;
      ghost var s0, c := Now(), Scope();
      var first, more := current, true;
      PrimaryStep(Rest(), c);
      ok, id, e := Atom();
      while ok && more
        invariant Kept() && (ok ==> Left() < old(Left()) && Owes(-1, -1))
        invariant Goes(ParsePrimary(old(Rest()), c), ok, if more then PostfixLoop(Rest(), e, c) else Ok(e, Rest()), Full())
        invariant ok ==> Built(s0, Now(), ExprTree(e), id)
        decreases ok, more, Left()
      {
        ok, more, id, e := Postfix(s0, first, id, e);
      }
    }

    /** One field access, indexing or call applied to the expression at `base`, if there is one. */
    method Postfix(ghost s0: Store, first: nat, base: nat, ghost e: Expr)
        returns (ok: bool, more: bool, id: nat, ghost e': Expr)
      requires Built(s0, Now(), ExprTree(e), base)
      modifies this
      ensures Kept() && (ok && more ==> Left() < old(Left()))
      ensures Goes(PostfixLoop(old(Rest()), e, old(Scope())), ok,
                   if more then PostfixLoop(Rest(), e', old(Scope())) else Ok(e', Rest()), Full())
      ensures ok ==> Built(s0, Now(), ExprTree(e'), id)
      decreases Left(), 2
    {
      hide PostfixLoop, ExprTree, ExprOk, Built, Now, AddCell, Seen, Full, Rest, Left, Starts;
      more := true;
      if Check(Dot) {
        ok, id, e' := FieldAccess(s0, base, e);
      } else if Check(LeftBracket) {
        ok, id, e' := Indexing(s0, first, base, e);
      } else if Check(LeftParen) || Check(LeftBrace) || Check(Kind.String) {
        ok, id, e' := Calling(s0, first, base, e);
      } else {
        PostfixDone(Rest(), e, Scope());
        ok, more, id, e' := true, false, base, e;
      }
    }

    /** `.name` */
    method FieldAccess(ghost s0: Store, base: nat, ghost e: Expr) returns (ok: bool, id: nat, ghost e': Expr)
      requires Check(Dot) && Built(s0, Now(), ExprTree(e), base)
      modifies this
      ensures Kept() && (ok ==> Left() < old(Left()))
      ensures Goes(PostfixLoop(old(Rest()), e, old(Scope())), ok, PostfixLoop(Rest(), e', old(Scope())), Full())
      ensures ok ==> Built(s0, Now(), ExprTree(e'), id)
      decreases Left(), 2, 0
    {
      hide PostfixLoop, ExprTree, ExprOk, Built, Now, AddCell, Seen, Full, Rest, Left, Starts;
      ghost var s1 := Now();
      id, e' := base, e;
      PostfixDot(Rest(), e, Scope());
      Advance();
      ok := Check(Identifier);
      if ok {
        var n := Fresh(FieldNode, current, NO_LINKS.(a := base));
        MemberBuilt(s0, s1, n, tokens, e, base);
        e' := Member(e, tokens[current].text);
        Advance();
        ok, id := NewNode(n);
      }
    }

    /** `[key]` */
    method Indexing(ghost s0: Store, first: nat, base: nat, ghost e: Expr) returns (ok: bool, id: nat, ghost e': Expr)
      requires Check(LeftBracket) && Built(s0, Now(), ExprTree(e), base)
      modifies this
      ensures Kept() && (ok ==> Left() < old(Left()))
      ensures Goes(PostfixLoop(old(Rest()), e, old(Scope())), ok, PostfixLoop(Rest(), e', old(Scope())), Full())
      ensures ok ==> Built(s0, Now(), ExprTree(e'), id)
      decreases Left(), 2, 0
    {
      hide PostfixLoop, ParseClosed, ExprTree, ExprOk, Built, Now, AddCell, Seen, Full, Rest, Left, Starts;
      ghost var s1 := Now();
      id, e' := base, e;
      PostfixBracket(Rest(), e, Scope());
      Advance();
      var key;
      ghost var k;
      ok, key, k := Closed(RightBracket);
      if ok {
        var n := Fresh(IndexNode, first, NO_LINKS.(a := base, b := key));
        IndexBuilt(s0, s1, Now(), n, tokens, e, base, k, key);
        ok, id := NewNode(n);
        e' := Index(e, k);
      }
    }

    /** The arguments of a call. */
    method Calling(ghost s0: Store, first: nat, base: nat, ghost e: Expr) returns (ok: bool, id: nat, ghost e': Expr)
      requires StartsCall(Rest()) && Built(s0, Now(), ExprTree(e), base)
      modifies this
      ensures Kept() && (ok ==> Left() < old(Left()))
      ensures Goes(PostfixLoop(old(Rest()), e, old(Scope())), ok, PostfixLoop(Rest(), e', old(Scope())), Full())
      ensures ok ==> Built(s0, Now(), ExprTree(e'), id)
      decreases Left(), 2, 0
    {
      hide PostfixLoop, ParseCallArgs, ExprTrees, ListDone, StartsCall, ExprTree, ExprOk, Built, Now, AddCell, Seen, Full, Rest, Left, Starts;
      ghost var s1 := Now();
      id, e' := base, e;
      PostfixCall(Rest(), e, Scope());
      var arguments;
      ghost var args;
      ok, arguments, args := CallArguments();
      if ok {
        var n := Fresh(CallNode, first, NO_LINKS.(a := base, list1 := arguments));
        CallBuilt(s0, s1, Now(), n, tokens, e, base, args, arguments);
        ok, id := NewNode(n);
        e' := Call(e, args);
      }
    }

    method Atom() returns (ok: bool, id: nat, ghost e: Expr)
      modifies this
      ensures Kept()
      ensures ok ==> Owes(-1, -1)
      ensures Reads(ParseAtom(old(Rest()), old(Scope())), ok, e, Rest(), Full())
      ensures ok ==> Built(old(Now()), Now(), ExprTree(e), id) && Left() < old(Left())
      decreases Left(), 2
    {
      hide ParseAtom, ParseTable, ParseFunctionBody, ParseClosed, ExprTree, ExprOk, Built, Now, AddCell, Seen, Full, Rest, Left, Starts;
      ok, id, e := false, 0, NilLit;
      AtomStep(Rest(), Scope());
      if !AtEnd() {
        var token, kind := current, Look();
        if IsLeaf(kind) {
          if kind != Ellipsis || varargAllowed {
            ok, id, e := LeafNode();
          }
        } else if kind == LeftBrace {
          ok, id, e := Table();
        } else if kind == Kind.Function {
          Advance();
          ok, id, e := FunctionBody(token);
        } else if kind == LeftParen {
          Advance();
          ok, id, e := Closed(RightParen);
        }
      }
    }

    /** Consume a token that is an expression by itself and allocate its node. */
    method LeafNode() returns (ok: bool, id: nat, ghost e: Expr)
      requires !AtEnd() && IsLeaf(Look())
      modifies this
      ensures Kept() && Rest() == old(Rest())[1..] && Left() < old(Left())
      ensures ok ==> Owes(-1, -1)
      ensures e == Leaf(old(Rest())[0])
      ensures if ok then Built(old(Now()), Now(), ExprTree(e), id) else Full()
    {
      hide Built, Now, AddCell, ExprTree, ExprTrees, StmtTrees, FieldTrees, Full, Rest, Left, Starts, Leaf, LeafKind, Seen,
           LeafOf;
      var kind := Look();
      var n := LeafOf(kind, current);
      e := Leaf(tokens[current]);
      LeafToken(kind, current);
      LeafTag(n, tokens);
      LeafExprBuilt(Now(), n, tokens, e);
      Advance();
      ok, id := NewNode(n);
    }

    static function LeafOf(kind: Kind, token: nat): Node {
      Fresh(LeafKind(kind), token, NO_LINKS).(flags := if kind == Kind.True then 1 else 0)
    }

    static lemma LeafToken(kind: Kind, token: nat)
      ensures LeafOf(kind, token).token == token
    {
    }

    static lemma LeafTag(n: Node, tokens: seq<Token>)
      requires n.token < |tokens| && IsLeaf(tokens[n.token].kind) && n == LeafOf(tokens[n.token].kind, n.token)
      ensures n.next == 0 && n.links == NO_LINKS && n.kind != TableNode
      ensures ExprTree(Leaf(tokens[n.token])) == Tree(Seen(n, tokens).tag, [])
    {
    }

    /** The node for a token that is an expression by itself. */
    static function LeafKind(k: Kind): AstKind {
      if k == Kind.Nil then NilNode
      else if k == Kind.True || k == Kind.False then BooleanNode
      else if k == Number then NumberNode
      else if k == Kind.String then StringNode
      else if k == Identifier then VariableNode
      else VarargNode
    }

    /** An expression and the bracket that closes it. */
    method Closed(close: Kind) returns (ok: bool, id: nat, ghost e: Expr)
      modifies this
      ensures Kept()
      ensures ok ==> Owes(-1, -1)
      ensures Reads(ParseClosed(old(Rest()), close, old(Scope())), ok, e, Rest(), Full())
      ensures ok ==> Built(old(Now()), Now(), ExprTree(e), id) && Left() < old(Left())
      decreases Left(), 6
    {
      hide ParseExpr, ParseClosed, ExprTree, ExprOk, Built, Now, AddCell, Seen, Full, Rest, Left, Starts;
      ClosedStep(Rest(), close, Scope());
      ok, id, e := Expression(1);
      if ok {
        ok := Match(close);
      }
    }

    method CallArguments() returns (ok: bool, head: nat, ghost args: seq<Expr>)
      modifies this
      ensures Kept()
      ensures ok ==> Owes(-1, 0)
      ensures Reads(ParseCallArgs(old(Rest()), old(Scope())), ok, args, Rest(), Full())
      ensures ok ==> ListDone(old(Now()), Now(), ExprTrees(args), head) && Left() < old(Left())
      decreases Left(), 1
    {
      hide ParseCallArgs, ExprTrees, ListDone, ExprsOk, Built, Now, AddCell, Seen, Full, Rest, Left, Starts;
      ok, head, args := false, 0, [];
      if Check(LeftParen) {
        ok, head, args := ParenArguments();
      } else if Check(LeftBrace) || Check(Kind.String) {
        ok, head, args := BareArgument();
      } else {
        NoCallArgs(Rest(), Scope());
      }
    }

    /** `( expressions )` */
    method ParenArguments() returns (ok: bool, head: nat, ghost args: seq<Expr>)
      requires Check(LeftParen)
      modifies this
      ensures Kept()
      ensures ok ==> Owes(-1, 0)
      ensures Reads(ParseCallArgs(old(Rest()), old(Scope())), ok, args, Rest(), Full())
      ensures ok ==> ListDone(old(Now()), Now(), ExprTrees(args), head) && Left() < old(Left())
      decreases Left(), 0
    {
      hide ParseCallArgs, ParseExprList, ExprTrees, ListDone, ExprsOk, Built, Now, AddCell, Seen, Full, Rest, Left, Starts;
      ParenArgsStep(Rest(), Scope());
      Advance();
      ok, head, args := true, 0, [];
      if Check(RightParen) {
        NothingListed(Now());
      } else {
        ok, head, args := ExpressionList();
      }
      if ok {
        ok := Match(RightParen);
      }
    }

    /** A table or a string as the only argument. */
    method BareArgument() returns (ok: bool, head: nat, ghost args: seq<Expr>)
      requires Check(LeftBrace) || Check(Kind.String)
      modifies this
      ensures Kept()
      ensures ok ==> Owes(-1, 0)
      ensures Reads(ParseCallArgs(old(Rest()), old(Scope())), ok, args, Rest(), Full())
      ensures ok ==> ListDone(old(Now()), Now(), ExprTrees(args), head) && Left() < old(Left())
      decreases Left(), 1, 0
    {
      hide ParseCallArgs, ParseTable, ExprTree, ExprTrees, ListDone, ExprOk, ExprsOk, Built, Now, AddCell, Seen, Full, Rest, Left, Starts;
      ghost var s0 := Now();
      var id;
      ghost var e;
      head, args := 0, [];
      BareArgsStep(Rest(), Scope());
      if Check(LeftBrace) {
        ok, id, e := Table();
      } else {
        ok, id, e := LeafNode();
      }
      if ok {
        ok, head := Single(s0, id, e);
        args := [e];
      }
    }

    /** The list of one expression just parsed. */
    method Single(ghost s0: Store, id: nat, ghost e: Expr) returns (ok: bool, head: nat)
      requires Built(s0, Now(), ExprTree(e), id)
      modifies `lists
      ensures |lists| == |old(lists)| + if ok then 1 else 0
      ensures if ok then ListDone(s0, Now(), ExprTrees([e]), head) else Full()
    {
      hide Built, ListDone, ListBuilt, Now, AddEntry, ExprTree, ExprTrees, Full, Rest, Left, Starts;
      FirstListed(s0, Now(), e, id);
      var tail;
      ok, head, tail := Append(0, 0, id);
      if ok {
        ListEnds(s0, Now(), ExprTrees([e]), head, tail);
      }
    }

    method ExpressionList() returns (ok: bool, head: nat, ghost es: seq<Expr>)
      modifies this
      ensures Kept()
      ensures ok ==> Owes(-1, 0)
      ensures Reads(ParseExprList(old(Rest()), old(Scope())), ok, es, Rest(), Full())
      ensures ok ==> ListDone(old(Now()), Now(), ExprTrees(es), head) && Left() < old(Left())
      decreases Left(), 6
    {
      hide ParseExprList, ListTail, ParseExpr, ExprTree, ExprTrees, ListDone, ListBuilt, AddEntry, ExprOk, ExprsOk, Built, Now, AddCell, Seen, Full, Rest, Left, Starts;
      ghost var s0, c := Now(), Scope();
      var id, tail := 0, 0;
      ghost var e;
      head := 0;
      ExprListStep(Rest(), c);
      ok, id, e := Expression(1);
      es := [e];
      if ok {
        FirstListed(s0, Now(), e, id);
        ok, head, tail := Append(0, 0, id);
      }
      while ok && Check(Comma)
        invariant Kept() && (ok ==> Left() < old(Left()) && Owes(-1, 0))
        invariant Goes(ParseExprList(old(Rest()), c), ok, ListTail(Rest(), es, c), Full())
        invariant ok ==> ListBuilt(s0, Now(), ExprTrees(es), head, tail)
        decreases ok, Left()
      {
        ok, head, tail, e := NextExpression(s0, es, head, tail);
        es := es + [e];
      }
      if ok {
        ListTailStep(Rest(), es, c);
        ListEnds(s0, Now(), ExprTrees(es), head, tail);
      }
    }

    /** One more expression of a list. */
    method NextExpression(ghost s0: Store, ghost es: seq<Expr>, head: nat, tail: nat)
        returns (ok: bool, head': nat, tail': nat, ghost e: Expr)
      requires Check(Comma) && ListBuilt(s0, Now(), ExprTrees(es), head, tail)
      modifies this
      ensures Kept() && (ok ==> Left() < old(Left()))
      ensures Goes(ListTail(old(Rest()), es, old(Scope())), ok, ListTail(Rest(), es + [e], old(Scope())), Full())
      ensures ok ==> ListBuilt(s0, Now(), ExprTrees(es + [e]), head', tail')
      decreases Left(), 6, 0
    {
      hide ListTail, ParseExpr, ExprTree, ExprTrees, ListBuilt, AddEntry, ExprOk, ExprsOk, Built, Now, AddCell, Seen, Full, Rest, Left, Starts;
      ghost var s1 := Now();
      var id;
      head', tail' := head, tail;
      ListTailStep(Rest(), es, Scope());
      Advance();
      ok, id, e := Expression(1);
      if ok {
        NextListed(s0, s1, Now(), es, head, tail, e, id);
        ok, head', tail' := Append(head, tail, id);
      }
    }

    // ---- tables and functions --------------------------------------------------------------

    method Table() returns (ok: bool, id: nat, ghost e: Expr)
      modifies this
      ensures Kept()
      ensures ok ==> Owes(-1, -1)
      ensures Reads(ParseTable(old(Rest()), old(Scope())), ok, e, Rest(), Full())
      ensures ok ==> Built(old(Now()), Now(), ExprTree(e), id) && Left() < old(Left())
      decreases Left(), 0
    {
      hide ParseTable, TableFields, FieldTrees, ExprTree, ListBuilt, Building.SetList, ExprOk, FieldsOk, Built, Now, AddCell, Seen, Full, Rest, Left, Starts;
      ghost var s0, c := Now(), Scope();
      var n := Fresh(TableNode, current, NO_LINKS);
      id, e := 0, NilLit;
      TableStep(Rest(), c);
      ok := Match(LeftBrace);
      if ok {
        ok, id := NewNode(n);
      }
      if ok {
        var head, tail;
        ghost var fs;
        ok, head, tail, fs := Fields();
        if ok {
          TableLitBuilt(s0, Now(), n, tokens, fs, head, tail);
          SetFirstList(id, head);
          e := TableLit(fs);
        }
      }
    }

    /** The fields of a table and its closing brace. */
    method Fields() returns (ok: bool, head: nat, tail: nat, ghost fs: seq<Field>)
      modifies this
      ensures Kept()
      ensures Reads(TableFields(old(Rest()), [], old(Scope())), ok, fs, Rest(), Full())
      ensures ok ==> ListBuilt(old(Now()), Now(), FieldTrees(fs), head, tail)
      decreases Left(), 7
    {
      hide TableFields, ParseField, FieldTree, FieldTrees, ListBuilt, AddEntry, FieldOk, FieldsOk, Built, Now, AddCell, Seen, Full, Rest, Left, Starts;
      ghost var s0, c := Now(), Scope();
      ok, head, tail, fs := true, 0, 0, [];
      EmptyLists(s0);
      while ok && !Check(RightBrace)
        invariant Kept()
        invariant Goes(TableFields(old(Rest()), [], c), ok, TableFields(Rest(), fs, c), Full())
        invariant ok ==> ListBuilt(s0, Now(), FieldTrees(fs), head, tail)
        decreases ok, Left()
      {
        ghost var f;
        ok, head, tail, f := NextTableField(s0, fs, head, tail);
        fs := fs + [f];
      }
      if ok {
        FieldsDone(Rest(), fs, c);
        Advance();
      }
    }

    /** One more field and the separator after it, which may be missing after the last one. */
    method NextTableField(ghost s0: Store, ghost fs: seq<Field>, head: nat, tail: nat)
        returns (ok: bool, head': nat, tail': nat, ghost f: Field)
      requires !Check(RightBrace) && ListBuilt(s0, Now(), FieldTrees(fs), head, tail)
      modifies this
      ensures Kept() && (ok ==> Left() < old(Left()))
      ensures Goes(TableFields(old(Rest()), fs, old(Scope())), ok, TableFields(Rest(), fs + [f], old(Scope())), Full())
      ensures ok ==> ListBuilt(s0, Now(), FieldTrees(fs + [f]), head', tail')
      decreases Left(), 7, 0
    {
      hide TableFields, ParseField, FieldTree, FieldTrees, ListBuilt, AddEntry, FieldOk, FieldsOk, Built, Now, AddCell, Seen, Full, Rest, Left, Starts;
      ghost var s1 := Now();
      head', tail', f := head, tail, Item(NilLit);
      FieldsStep(Rest(), fs, Scope());
      ok := !AtEnd() && !Check(Kind.EOF);
      if ok {
        var field;
        ok, field, f := TableField();
        if ok {
          NextField(s0, s1, Now(), fs, head, tail, f, field);
          ok, head', tail' := Append(head, tail, field);
        }
      }
      if ok {
        var separated := Match(Comma);
        if !separated { separated := Match(Semicolon); }
        ok := separated || Check(RightBrace);
      }
    }

    method TableField() returns (ok: bool, id: nat, ghost f: Field)
      modifies this
      ensures Kept()
      ensures ok ==> Owes(0, -1)
      ensures Reads(ParseField(old(Rest()), old(Scope())), ok, f, Rest(), Full())
      ensures ok ==> Built(old(Now()), Now(), FieldTree(f), id) && Left() < old(Left())
      decreases Left(), 6
    {
      hide ParseField, FieldTree, FieldOk, Built, Now, AddCell, Seen, Full, Rest, Left, Starts;
      if Check(LeftBracket) {
        ok, id, f := KeyedField();
      } else {
        ok, id, f := ValueField();
      }
    }

    /** `[key] = value` */
    method KeyedField() returns (ok: bool, id: nat, ghost f: Field)
      requires Check(LeftBracket)
      modifies this
      ensures Kept()
      ensures ok ==> Owes(0, -1)
      ensures Reads(ParseField(old(Rest()), old(Scope())), ok, f, Rest(), Full())
      ensures ok ==> Built(old(Now()), Now(), FieldTree(f), id) && Left() < old(Left())
      decreases Left(), 6, 0
    {
      hide ParseField, ParseExpr, ParseClosed, ExprTree, FieldTree, ExprOk, FieldOk, Built, Now, AddCell, Seen, Full, Rest, Left, Starts;
      ghost var s0 := Now();
      var token, key, value := current, 0, 0;
      ghost var k, v := NilLit, NilLit;
      id, f := 0, Item(NilLit);
      KeyedFieldStep(Rest(), Scope());
      Advance();
      ok, key, k := Closed(RightBracket);
      ghost var s1 := Now();
      if ok {
        ok := Match(Equal);
      }
      if ok {
        ok, value, v := Expression(1);
      }
      if ok {
        var n := Node(TableFieldNode, Kind.EOF, token, NO_LINKS.(a := key, b := value), 0, FIELD_INDEXED);
        KeyedBuilt(s0, s1, Now(), n, tokens, k, key, v, value);
        ok, id := NewNode(n);
        f := Keyed(k, v);
      }
    }

    /** `name = value` or `value` */
    method ValueField() returns (ok: bool, id: nat, ghost f: Field)
      requires !Check(LeftBracket)
      modifies this
      ensures Kept()
      ensures ok ==> Owes(0, -1)
      ensures Reads(ParseField(old(Rest()), old(Scope())), ok, f, Rest(), Full())
      ensures ok ==> Built(old(Now()), Now(), FieldTree(f), id) && Left() < old(Left())
      decreases Left(), 6, 0
    {
      hide ParseField, ParseExpr, ExprTree, FieldTree, ExprOk, FieldOk, Built, Now, AddCell, Seen, Full, Rest, Left, Starts;
      ghost var s0 := Now();
      var token, value := current, 0;
      ghost var v := NilLit;
      id, f := 0, Item(NilLit);
      ValueFieldStep(Rest(), Scope());
      var named := Check(Identifier) && NextIs(Equal);
      if named {
        PassName();
      }
      ok, value, v := Expression(1);
      if ok {
        f := if named then Named(tokens[token].text, v) else Item(v);
        var n := Node(TableFieldNode, Kind.EOF, token, NO_LINKS.(b := value), 0, if named then FIELD_NAMED else FIELD_ARRAY);
        FieldBuilt(s0, Now(), n, tokens, f, value);
        ok, id := NewNode(n);
      }
    }

    /** `( parameters )` */
    method Parameters() returns (ok: bool, head: nat, variadic: bool, ghost ps: seq<string>)
      modifies this
      ensures Kept()
      ensures Reads(ParseParams(old(Rest())), ok, (ps, variadic), Rest(), Full())
      ensures ok ==> ListDone(old(Now()), Now(), NameTrees(ps), head) && Left() < old(Left())
      decreases Left(), 0
    {
      hide ParseParams, ParamTail, NameTrees, ListDone, ListBuilt, Built, Now, AddCell, Seen, Full, Rest, Left, Starts;
      ghost var s0 := Now();
      head, variadic, ps := 0, false, [];
      ParamsStep(Rest());
      ok := Match(LeftParen);
      if ok {
        var tail := 0;
        if Check(RightParen) {
          EmptyLists(s0);
        } else {
          ok, head, tail, variadic, ps := ParameterNames();
        }
        if ok {
          ListEnds(s0, Now(), NameTrees(ps), head, tail);
          ok := Match(RightParen);
        }
      }
    }

    method ParameterNames() returns (ok: bool, head: nat, tail: nat, variadic: bool, ghost ps: seq<string>)
      modifies this
      ensures Kept()
      ensures Reads(ParamTail(old(Rest()), []), ok, (ps, variadic), Rest(), Full())
      ensures ok ==> ListBuilt(old(Now()), Now(), NameTrees(ps), head, tail)
      decreases Left(), 0
    {
      hide ParamTail, NameTrees, ListBuilt, Built, Now, AddCell, Seen, Full, Rest, Left, Starts;
      ghost var s0 := Now();
      ok, head, tail, variadic, ps := true, 0, 0, false, [];
      var more := true;
      EmptyLists(s0);
      while ok && more
        invariant Kept()
        invariant Goes(ParamTail(old(Rest()), []), ok, if more then ParamTail(Rest(), ps) else Ok((ps, variadic), Rest()), Full())
        invariant ok ==> ListBuilt(s0, Now(), NameTrees(ps), head, tail)
        decreases ok, more, Left()
      {
        ParamTailStep(Rest(), ps);
        variadic := Match(Ellipsis);
        if variadic {
          more := false;
        } else {
          ok := Check(Identifier);
          if ok {
            ghost var p := tokens[current].text;
            ok, head, tail := Name(s0, ps, head, tail);
            ps := ps + [p];
            if ok { more := Match(Comma); }
          }
        }
      }
    }

    /** Consume a name and put its node at the end of a list of names. */
    method Name(ghost s0: Store, ghost ns: seq<string>, head: nat, tail: nat)
        returns (ok: bool, head': nat, tail': nat)
      requires current < |tokens| && ListBuilt(s0, Now(), NameTrees(ns), head, tail)
      modifies this
      ensures Kept() && Rest() == old(Rest())[1..] && Left() < old(Left())
      ensures ok ==> Owes(-1, 0)
      ensures if ok then ListBuilt(s0, Now(), NameTrees(ns + [tokens[old(current)].text]), head', tail') else Full()
    {
      hide Built, ListBuilt, Now, AddEntry, AddCell, Seen, NameTree, NameTrees, Full, Rest, Left, Starts;
      ghost var s1 := Now();
      var n := Fresh(VariableNode, current, NO_LINKS);
      Advance();
      var id;
      head', tail' := head, tail;
      NameBuilt(s1, n, tokens);
      ok, id := NewNode(n);
      if ok {
        NextName(s0, s1, Now(), ns, head, tail, tokens[n.token].text, id);
        ok, head', tail' := Append(head, tail, id);
      }
    }

    method FunctionBody(functionToken: nat) returns (ok: bool, id: nat, ghost e: Expr)
      modifies this
      ensures Kept()
      ensures ok ==> Owes(-1, -1)
      ensures Reads(ParseFunctionBody(old(Rest()), old(Scope())), ok, e, Rest(), Full())
      ensures ok ==> Built(old(Now()), Now(), ExprTree(e), id) && Left() < old(Left()) && e.FunctionLit?
      decreases Left(), 0
    {
      hide ParseFunctionBody, ParseParams, BlockEnd, ExprTree, NameTrees, StmtTrees, ListDone, ChainDone, ExprOk, BlockOk, Built, Now, AddCell, Seen, Full, Rest, Left, Starts;
      ghost var s0 := Now();
      id, e := 0, NilLit;
      FunctionBodyStep(Rest(), Scope());
      var head, variadic;
      ghost var ps;
      ok, head, variadic, ps := Parameters();
      if ok {
        ghost var s1 := Now();
        var savedDepth, savedVararg := loopDepth, varargAllowed;
        loopDepth, varargAllowed := 0, variadic;
        var first;
        ghost var code;
        ok, first, code := BlockToEnd();
        loopDepth, varargAllowed := savedDepth, savedVararg;
        if ok {
          var n := Node(FunctionNode, Kind.EOF, functionToken, NO_LINKS.(list1 := head, a := first), 0, if variadic then 1 else 0);
          FunctionBuilt(s0, s1, Now(), n, tokens, ps, head, variadic, code, first);
          ok, id := NewNode(n);
          e := FunctionLit(ps, variadic, code);
        }
      }
    }

    // ---- blocks and statements -------------------------------------------------------------

    /** A block and the `end` that closes it. */
    method BlockToEnd() returns (ok: bool, first: nat, ghost code: seq<Stmt>)
      modifies this
      ensures Kept()
      ensures ok ==> Owes(-2, -1)
      ensures Reads(BlockEnd(old(Rest()), old(Scope())), ok, code, Rest(), Full())
      ensures ok ==> ChainDone(old(Now()), Now(), StmtTrees(code), first) && Left() < old(Left())
      decreases Left(), 10
    {
      hide BlockEnd, BlockLoop, ChainDone, StmtTrees, BlockOk, Built, Now, AddCell, Seen, Full, Rest, Left, Starts;
      BlockEndStep(Rest(), Scope());
      ok, first, code := Block({Kind.End});
      if ok {
        ok := Match(Kind.End);
      }
    }

    method Block(stop: set<Kind>) returns (ok: bool, first: nat, ghost code: seq<Stmt>)
      modifies this
      ensures Kept()
      ensures Reads(BlockLoop(old(Rest()), [], stop, old(Scope())), ok, code, Rest(), Full())
      ensures ok ==> ChainDone(old(Now()), Now(), StmtTrees(code), first)
      decreases Left(), 9
    {
      hide BlockLoop, ParseStmt, StmtTree, StmtTrees, ChainDone, ChainBuilt, Building.LinkCell, BlockOk, StmtOk, Stops, Built, Now, AddCell, Seen, Full, Rest, Left, Starts;
      ghost var s0, c := Now(), Scope();
      var last := 0;
      ok, first, code := true, 0, [];
      EmptyLists(s0);
      while ok && !AtStop(stop)
        invariant Kept()
        invariant Goes(BlockLoop(old(Rest()), [], stop, c), ok, BlockLoop(Rest(), code, stop, c), Full())
        invariant ok ==> ChainBuilt(s0, Now(), StmtTrees(code), first, last)
        decreases ok, Left()
      {
        BlockStep(Rest(), code, stop, c);
        if Check(Semicolon) {
          Advance();
        } else {
          ghost var s1 := Now();
          var statement;
          ghost var s;
          ok, statement, s := Statement();
          if ok {
            BlockGoesOn(s0, s1, Now(), code, first, last, s, statement);
            Link(last, statement);
            if last == 0 { first := statement; }
            last := statement;
            code := code + [s];
            var _ := Match(Semicolon);
          }
        }
      }
      if ok {
        BlockStep(Rest(), code, stop, c);
        ChainEnds(s0, Now(), StmtTrees(code), first, last);
      }
    }

    predicate AtStop(stop: set<Kind>)
      reads `current
      ensures AtStop(stop) == Stops(Rest(), stop)
    {
      current < |tokens| && (tokens[current].kind == Kind.EOF || tokens[current].kind in stop)
    }

    method Statement() returns (ok: bool, id: nat, ghost s: Stmt)
      modifies this
      ensures Kept()
      ensures Reads(ParseStmt(old(Rest()), old(Scope())), ok, s, Rest(), Full())
      ensures ok ==> Built(old(Now()), Now(), StmtTree(s), id) && Left() < old(Left())
      decreases Left(), 8
    {
      hide ParseStmt, ParseLocal, ParseFunctionDecl, ParseArms, ParseWhile, ParseFor, ParseReturn, ParseExprStmt, StmtTree, StmtOk, Built, Now, AddCell, Seen, Full, Rest, Left, Starts;
      ok, id, s := false, 0, BreakStmt;
      if AtEnd() {
        NoStatement(Scope());
      } else if Check(Kind.If) {
        ok, id, s := ConditionalStatement();
      } else if Check(While) || Check(For) {
        ok, id, s := LoopStatement();
      } else if Check(Local) || Check(Kind.Function) {
        ok, id, s := DeclarationStatement();
      } else if Check(Break) || Check(Return) {
        ok, id, s := JumpStatement();
      } else {
        NoKeyword(Rest(), Scope());
        ok, id, s := ExpressionStatement();
      }
    }

    /** A conditional. */
    method ConditionalStatement() returns (ok: bool, id: nat, ghost s: Stmt)
      requires Check(Kind.If)
      modifies this
      ensures Kept()
      ensures Reads(ParseStmt(old(Rest()), old(Scope())), ok, s, Rest(), Full())
      ensures ok ==> Built(old(Now()), Now(), StmtTree(s), id) && Left() < old(Left())
      decreases Left(), 8, 0
    {
      hide ParseStmt, ParseLocal, ParseFunctionDecl, ParseArms, ParseWhile, ParseFor, ParseReturn, ParseExprStmt, StmtTree, StmtOk, Built, Now, AddCell, Seen, Full, Rest, Left, Starts;
      var token := current;
      IfKeyword(Rest(), Scope());
      Advance();
      ok, id, s := IfStatement(token);
    }

    /** Loops. */
    method LoopStatement() returns (ok: bool, id: nat, ghost s: Stmt)
      requires Check(While) || Check(For)
      modifies this
      ensures Kept()
      ensures Reads(ParseStmt(old(Rest()), old(Scope())), ok, s, Rest(), Full())
      ensures ok ==> Built(old(Now()), Now(), StmtTree(s), id) && Left() < old(Left())
      decreases Left(), 8, 0
    {
      hide ParseStmt, ParseLocal, ParseFunctionDecl, ParseArms, ParseWhile, ParseFor, ParseReturn, ParseExprStmt, StmtTree, StmtOk, Built, Now, AddCell, Seen, Full, Rest, Left, Starts;
      var token := current;
      if Check(While) {
        WhileKeyword(Rest(), Scope());
        Advance();
        ok, id, s := WhileStatement(token);
      } else {
        ForKeyword(Rest(), Scope());
        Advance();
        ok, id, s := ForStatement(token);
      }
    }

    /** Declarations. */
    method DeclarationStatement() returns (ok: bool, id: nat, ghost s: Stmt)
      requires Check(Local) || Check(Kind.Function)
      modifies this
      ensures Kept()
      ensures Reads(ParseStmt(old(Rest()), old(Scope())), ok, s, Rest(), Full())
      ensures ok ==> Built(old(Now()), Now(), StmtTree(s), id) && Left() < old(Left())
      decreases Left(), 8, 0
    {
      hide ParseStmt, ParseLocal, ParseFunctionDecl, ParseArms, ParseWhile, ParseFor, ParseReturn, ParseExprStmt, StmtTree, StmtOk, Built, Now, AddCell, Seen, Full, Rest, Left, Starts;
      var token := current;
      if Check(Local) {
        LocalKeyword(Rest(), Scope());
        Advance();
        ok, id, s := LocalStatement(token);
      } else {
        FunctionKeyword(Rest(), Scope());
        Advance();
        ok, id, s := FunctionStatement(token);
      }
    }

    /** Jumps. */
    method JumpStatement() returns (ok: bool, id: nat, ghost s: Stmt)
      requires Check(Break) || Check(Return)
      modifies this
      ensures Kept()
      ensures Reads(ParseStmt(old(Rest()), old(Scope())), ok, s, Rest(), Full())
      ensures ok ==> Built(old(Now()), Now(), StmtTree(s), id) && Left() < old(Left())
      decreases Left(), 8, 0
    {
      hide ParseStmt, ParseLocal, ParseFunctionDecl, ParseArms, ParseWhile, ParseFor, ParseReturn, ParseExprStmt, StmtTree, StmtOk, Built, Now, AddCell, Seen, Full, Rest, Left, Starts;
      var token := current;
      if Check(Break) {
        BreakKeyword(Rest(), Scope());
        Advance();
        ok, id, s := BreakStatement(token);
      } else {
        ReturnKeyword(Rest(), Scope());
        Advance();
        ok, id, s := ReturnStatement(token);
      }
    }

    method BreakStatement(breakToken: nat) returns (ok: bool, id: nat, ghost s: Stmt)
      modifies this
      ensures Unmoved() && Owes(1, 0) && Rest() == old(Rest()) && s == BreakStmt
      ensures if ok then old(Scope()).inLoop && Built(old(Now()), Now(), StmtTree(s), id) else !old(Scope()).inLoop || Full()
    {
      hide Built, Now, AddCell, Seen, Full, Rest, Left, StmtTree;
      ok, id, s := false, 0, BreakStmt;
      if loopDepth != 0 {
        var n := Fresh(BreakNode, breakToken, NO_LINKS);
        BreakBuilt(Now(), n, tokens);
        ok, id := NewNode(n);
      }
    }

    method LocalStatement(localToken: nat) returns (ok: bool, id: nat, ghost s: Stmt)
      modifies this
      ensures Kept()
      ensures Reads(ParseLocal(old(Rest()), old(Scope())), ok, s, Rest(), Full())
      ensures ok ==> Built(old(Now()), Now(), StmtTree(s), id)
      decreases Left(), 1
    {
      hide ParseLocal, ParseLocalFunction, ParseLocalNames, StmtTree, StmtOk, Built, Now, AddCell, Seen, Full, Rest, Left, Starts;
      LocalStep(Rest(), Scope());
      if Check(Kind.Function) {
        Advance();
        ok, id, s := NamedLocalFunction(localToken);
      } else {
        ok, id, s := LocalNames(localToken);
      }
    }

    method NamedLocalFunction(localToken: nat) returns (ok: bool, id: nat, ghost s: Stmt)
      modifies this
      ensures Kept()
      ensures Reads(ParseLocalFunction(old(Rest()), old(Scope())), ok, s, Rest(), Full())
      ensures ok ==> Built(old(Now()), Now(), StmtTree(s), id)
      decreases Left(), 0
    {
      hide ParseLocalFunction, ParseFunctionBody, ExprTree, StmtTree, ExprOk, StmtOk, Built, Now, AddCell, Seen, Full, Rest, Left, Starts;
      ghost var s0 := Now();
      id, s := 0, BreakStmt;
      LocalFunctionStep(Rest(), Scope());
      ok := Check(Identifier);
      if ok {
        var name := current;
        Advance();
        var function';
        ghost var f;
        ok, function', f := FunctionBody(localToken);
        if ok {
          var n := Fresh(LocalFunctionNode, name, NO_LINKS.(a := function'));
          LocalFunctionBuilt(s0, Now(), n, tokens, f, function');
          ok, id := NewNode(n);
          s := LocalFunction(tokens[name].text, f);
        }
      }
    }

    method LocalNames(localToken: nat) returns (ok: bool, id: nat, ghost s: Stmt)
      modifies this
      ensures Kept()
      ensures Reads(ParseLocalNames(old(Rest()), old(Scope())), ok, s, Rest(), Full())
      ensures ok ==> Built(old(Now()), Now(), StmtTree(s), id)
      decreases Left(), 0
    {
      hide ParseLocalNames, NameTail, ParseExprList, NameTrees, ExprTrees, StmtTree, ListDone, ExprsOk, StmtOk, Built, Now, AddCell, Seen, Full, Rest, Left, Starts;
      ghost var s0 := Now();
      id, s := 0, BreakStmt;
      LocalNamesStep(Rest(), Scope());
      var names;
      ghost var ns;
      ok, names, ns := NameList();
      if ok {
        ghost var s1 := Now();
        var values := 0;
        ghost var vs: seq<Expr> := [];
        var initialised := Match(Equal);
        if initialised {
          ok, values, vs := ExpressionList();
        } else {
          NothingListed(s1);
        }
        if ok {
          var n := Fresh(LocalAssignNode, localToken, NO_LINKS.(list1 := names, list2 := values));
          LocalBuilt(s0, s1, Now(), n, tokens, ns, names, vs, values);
          ok, id := NewNode(n);
          s := LocalAssign(ns, vs);
        }
      }
    }

    /** `name {, name}` */
    method NameList() returns (ok: bool, head: nat, ghost ns: seq<string>)
      modifies this
      ensures Kept()
      ensures ok ==> Owes(-1, 0)
      ensures Reads(NameTail(old(Rest()), []), ok, ns, Rest(), Full())
      ensures ok ==> ListDone(old(Now()), Now(), NameTrees(ns), head) && Left() < old(Left())
      decreases Left(), 0
    {
      hide NameTail, NameTrees, ListDone, ListBuilt, Built, Now, AddCell, Seen, Full, Rest, Left, Starts;
      ghost var s0 := Now();
      var tail, more := 0, true;
      ok, head, ns := true, 0, [];
      EmptyLists(s0);
      while ok && more
        invariant Kept() && (ok ==> more || (Left() < old(Left()) && Owes(-1, 0)))
        invariant Goes(NameTail(old(Rest()), []), ok, if more then NameTail(Rest(), ns) else Ok(ns, Rest()), Full())
        invariant ok ==> ListBuilt(s0, Now(), NameTrees(ns), head, tail)
        decreases ok, more, Left()
      {
        NamesStep(Rest(), ns);
        ok := Check(Identifier);
        if ok {
          ghost var n := tokens[current].text;
          ok, head, tail := Name(s0, ns, head, tail);
          ns := ns + [n];
          if ok { more := Match(Comma); }
        }
      }
      if ok {
        ListEnds(s0, Now(), NameTrees(ns), head, tail);
      }
    }

    method FunctionStatement(functionToken: nat) returns (ok: bool, id: nat, ghost s: Stmt)
      modifies this
      ensures Kept()
      ensures Reads(ParseFunctionDecl(old(Rest()), old(Scope())), ok, s, Rest(), Full())
      ensures ok ==> Built(old(Now()), Now(), StmtTree(s), id)
      decreases Left(), 1
    {
      hide ParseFunctionDecl, DottedTail, ParseFunctionBody, ExprTree, StmtTree, ExprOk, StmtOk, Built, Now, AddCell, Seen, Full, Rest, Left, Starts;
      ghost var s0 := Now();
      id, s := 0, BreakStmt;
      FunctionDeclStep(Rest(), Scope());
      ok := Check(Identifier);
      if ok {
        var target, function' := 0, 0;
        ghost var t, f;
        ok, target, t := FunctionName();
        ghost var s1 := Now();
        if ok {
          ok, function', f := FunctionBody(functionToken);
        }
        if ok {
          var n := Fresh(FunctionDeclNode, functionToken, NO_LINKS.(a := target, b := function'));
          FunctionDeclBuilt(s0, s1, Now(), n, tokens, t, target, f, function');
          ok, id := NewNode(n);
          s := FunctionDecl(t, f);
        }
      }
    }

    /** The dotted name of a declared function. */
    method FunctionName() returns (ok: bool, id: nat, ghost t: Expr)
      requires Check(Identifier)
      modifies this
      ensures Kept()
      ensures Reads(DottedTail(old(Rest())[1..], Var(tokens[old(current)].text), old(Scope())), ok, t, Rest(), Full())
      ensures ok ==> Built(old(Now()), Now(), ExprTree(t), id) && Left() < old(Left())
    {
      hide DottedTail, ExprTree, ExprOk, Built, Now, AddCell, Seen, Full, Rest, Left, Starts;
      ghost var s0, c, spec := Now(), Scope(), DottedTail(Rest()[1..], Var(tokens[current].text), Scope());
      ok, id, t := LeafNode();
      while ok && Check(Dot)
        invariant Kept() && (ok ==> Left() < old(Left()))
        invariant Goes(spec, ok, DottedTail(Rest(), t, c), Full())
        invariant ok ==> Built(s0, Now(), ExprTree(t), id)
        decreases ok, Left()
      {
        ok, id, t := NameField(s0, id, t);
      }
      if ok {
        DottedStep(Rest(), t, c);
      }
    }

    /** `.name` after the name of a declared function. */
    method NameField(ghost s0: Store, base: nat, ghost t: Expr) returns (ok: bool, id: nat, ghost t': Expr)
      requires Check(Dot) && Built(s0, Now(), ExprTree(t), base)
      modifies this
      ensures Kept() && (ok ==> Left() < old(Left()))
      ensures Goes(DottedTail(old(Rest()), t, old(Scope())), ok, DottedTail(Rest(), t', old(Scope())), Full())
      ensures ok ==> Built(s0, Now(), ExprTree(t'), id)
    {
      hide DottedTail, ExprTree, ExprOk, Built, Now, AddCell, Seen, Full, Rest, Left, Starts;
      id, t' := base, t;
      DottedStep(Rest(), t, Scope());
      Advance();
      ok := Check(Identifier);
      if ok {
        var n := Fresh(FieldNode, current, NO_LINKS.(a := base));
        MemberBuilt(s0, Now(), n, tokens, t, base);
        t' := Member(t, tokens[current].text);
        Advance();
        ok, id := NewNode(n);
      }
    }

    method IfStatement(ifToken: nat) returns (ok: bool, id: nat, ghost s: Stmt)
      modifies this
      ensures Kept()
      ensures Reads(ParseArms(old(Rest()), [], old(Scope())), ok, s, Rest(), Full())
      ensures ok ==> Built(old(Now()), Now(), StmtTree(s), id)
      decreases Left(), 7
    {
      hide ParseArms, ArmTrees, ElseTrees, StmtTree, ListBuilt, ArmsOk, StmtOk, Built, Now, AddCell, Seen, Full, Rest, Left, Starts;
      ghost var s0 := Now();
      id, s := 0, BreakStmt;
      var head, tail, hasElse, more := 0, 0, false, true;
      ghost var arms: seq<Arm>, last: seq<Stmt> := [], [];
      ok := true;
      EmptyLists(s0);
      NoElse([]);
      while ok && more
        invariant Kept()
        invariant Goes(ParseArms(old(Rest()), [], old(Scope())), ok,
                       if more then ParseArms(Rest(), arms, old(Scope())) else IfEnd(Rest(), arms, hasElse, last), Full())
        invariant ok ==> ListBuilt(s0, Now(), ArmTrees(arms) + ElseTrees(hasElse, last), head, tail)
        invariant more ==> !hasElse && last == []
        decreases ok, more, Left()
      {
        ok, more, head, tail, hasElse, arms, last := Clauses(s0, head, tail, arms);
      }
      if ok {
        ok := Match(Kind.End);
      }
      if ok {
        var n := Fresh(IfNode, ifToken, NO_LINKS.(list1 := head));
        IfStmtBuilt(s0, Now(), n, tokens, arms, hasElse, last, head, tail);
        ok, id := NewNode(n);
        s := IfStmt(arms, hasElse, last);
      }
    }

    /** One guarded clause, and the `else` clause if it comes next; `more` when another guarded
        clause follows. */
    method Clauses(ghost s0: Store, head: nat, tail: nat, ghost arms: seq<Arm>)
        returns (ok: bool, more: bool, head': nat, tail': nat, hasElse: bool, ghost arms': seq<Arm>, ghost last: seq<Stmt>)
      requires ListBuilt(s0, Now(), ArmTrees(arms) + ElseTrees(false, []), head, tail)
      modifies this
      ensures Kept() && (ok ==> Left() < old(Left()))
      ensures Goes(ParseArms(old(Rest()), arms, old(Scope())), ok,
                   if more then ParseArms(Rest(), arms', old(Scope())) else IfEnd(Rest(), arms', hasElse, last), Full())
      ensures ok ==> ListBuilt(s0, Now(), ArmTrees(arms') + ElseTrees(hasElse, last), head', tail')
      ensures more ==> !hasElse && last == []
      decreases Left(), 7, 0
    {
      hide ParseArms, ParseArm, BlockEnd, BlockLoop, ArmTree, ArmTrees, ElseTrees, ListBuilt, AddEntry, ArmOk, ArmsOk, StmtOk,
           BlockOk, Built, Now, AddCell, Seen, Full, Rest, Left, Starts;
      ghost var s1, c := Now(), Scope();
      var clause;
      ghost var arm;
      more, head', tail', hasElse, arms', last := false, head, tail, false, arms, [];
      ArmsStep(Rest(), arms, c);
      ok, clause, arm := Clause();
      if ok {
        NoElse(arms);
        NextClause(s0, s1, Now(), arms, head, tail, arm, clause);
        ok, head', tail' := Append(head, tail, clause);
        arms' := arms + [arm];
        NoElse(arms');
      }
      if ok {
        more := Match(Kind.Elseif);
        if !more {
          hasElse := Match(Kind.Else);
          if hasElse {
            BlockEndStep(Rest(), c);
            ok, head', tail', last := ElseClause(s0, head', tail', arms');
          }
        }
      }
    }

    /** `condition then block` of an if statement. */
    method Clause() returns (ok: bool, id: nat, ghost arm: Arm)
      modifies this
      ensures Kept()
      ensures ok ==> Owes(0, -1)
      ensures Reads(ParseArm(old(Rest()), old(Scope())), ok, arm, Rest(), Full())
      ensures ok ==> Built(old(Now()), Now(), ArmTree(arm), id) && Left() < old(Left())
      decreases Left(), 6
    {
      hide ParseArm, ParseExpr, BlockLoop, ExprTree, StmtTrees, ArmTree, ChainDone, ExprOk, BlockOk, Built, Now, AddCell, Seen, Full, Rest, Left, Starts;
      ghost var s0 := Now();
      var token := current;
      var condition;
      ghost var g;
      id, arm := 0, Arm(NilLit, []);
      ArmStep(Rest(), Scope());
      ok, condition, g := Expression(1);
      ghost var s1 := Now();
      if ok {
        ok := Match(Then);
      }
      if ok {
        var body;
        ghost var code;
        ok, body, code := Block(ARM_STOP);
        if ok {
          var n := Fresh(IfClauseNode, token, NO_LINKS.(a := condition, b := body));
          arm := Arm(g, code);
          ClauseBuilt(s0, s1, Now(), n, tokens, arm, condition, body);
          ok, id := NewNode(n);
        }
      }
    }

    /** The block after `else`, as a clause without a condition at the end of the clauses. */
    method ElseClause(ghost s0: Store, head: nat, tail: nat, ghost arms: seq<Arm>)
        returns (ok: bool, head': nat, tail': nat, ghost last: seq<Stmt>)
      requires ListBuilt(s0, Now(), ArmTrees(arms), head, tail)
      modifies this
      ensures Unmoved() && Owes(1, 1)
      ensures Reads(BlockLoop(old(Rest()), [], {Kind.End}, old(Scope())), ok, last, Rest(), Full())
      ensures ok ==> ListBuilt(s0, Now(), ArmTrees(arms) + ElseTrees(true, last), head', tail')
      decreases Left(), 10
    {
      hide BlockLoop, Built, ListBuilt, ChainDone, Now, AddCell, AddEntry, ArmTrees, StmtTrees, ElseTrees, ElseTree, BlockOk,
           Seen, Full, Rest, Left, Starts;
      ghost var s1 := Now();
      var body, clause;
      head', tail' := head, tail;
      ok, body, last := Block({Kind.End});
      if ok {
        var n := Fresh(IfClauseNode, current, NO_LINKS.(b := body));
        ElseBuilt(s1, Now(), n, tokens, last, body);
        ok, clause := NewNode(n);
        if ok {
          LastClause(s0, s1, Now(), arms, head, tail, last, clause);
          ok, head', tail' := Append(head, tail, clause);
        }
      }
    }

    /** `do block end` of a loop, one loop deeper. */
    method LoopBody() returns (ok: bool, first: nat, ghost code: seq<Stmt>)
      modifies this
      ensures Kept()
      ensures Reads(ParseLoopBody(old(Rest()), old(Scope())), ok, code, Rest(), Full())
      ensures ok ==> ChainDone(old(Now()), Now(), StmtTrees(code), first) && Left() < old(Left())
      decreases Left(), 0
    {
      hide ParseLoopBody, BlockEnd, StmtTrees, ChainDone, BlockOk, Built, Now, AddCell, Seen, Full, Rest, Left, Starts;
      first, code := 0, [];
      LoopBodyStep(Rest(), Scope());
      ok := Match(Do);
      if ok {
        loopDepth := loopDepth + 1;
        ok, first, code := BlockToEnd();
        loopDepth := loopDepth - 1;
      }
    }

    method WhileStatement(whileToken: nat) returns (ok: bool, id: nat, ghost s: Stmt)
      modifies this
      ensures Kept()
      ensures Reads(ParseWhile(old(Rest()), old(Scope())), ok, s, Rest(), Full())
      ensures ok ==> Built(old(Now()), Now(), StmtTree(s), id)
      decreases Left(), 6
    {
      hide ParseWhile, ParseExpr, ParseLoopBody, ExprTree, StmtTrees, StmtTree, ChainDone, ExprOk, StmtOk, BlockOk, Built, Now, AddCell, Seen, Full, Rest, Left, Starts;
      ghost var s0 := Now();
      id, s := 0, BreakStmt;
      var condition;
      ghost var e;
      WhileStep(Rest(), Scope());
      ok, condition, e := Expression(1);
      if ok {
        ghost var s1 := Now();
        var body;
        ghost var code;
        ok, body, code := LoopBody();
        if ok {
          var n := Fresh(WhileNode, whileToken, NO_LINKS.(a := condition, b := body));
          WhileBuilt(s0, s1, Now(), n, tokens, e, condition, code, body);
          ok, id := NewNode(n);
          s := WhileStmt(e, code);
        }
      }
    }

    method ForStatement(forToken: nat) returns (ok: bool, id: nat, ghost s: Stmt)
      modifies this
      ensures Kept()
      ensures Reads(ParseFor(old(Rest()), old(Scope())), ok, s, Rest(), Full())
      ensures ok ==> Built(old(Now()), Now(), StmtTree(s), id)
      decreases Left(), 1
    {
      hide ParseFor, ParseForNumeric, ParseForGeneric, StmtTree, StmtOk, Built, Now, AddCell, Seen, Full, Rest, Left, Starts;
      id, s := 0, BreakStmt;
      ForStep(Rest(), Scope());
      ok := Check(Identifier);
      if ok {
        if NextIs(Equal) {
          var name := current;
          PassName();
          ok, id, s := NumericFor(name);
        } else {
          ok, id, s := GenericFor(forToken);
        }
      }
    }

    method NumericFor(name: nat) returns (ok: bool, id: nat, ghost s: Stmt)
      requires name < |tokens|
      modifies this
      ensures Kept()
      ensures Reads(ParseForNumeric(old(Rest()), tokens[name].text, old(Scope())), ok, s, Rest(), Full())
      ensures ok ==> Built(old(Now()), Now(), StmtTree(s), id)
      decreases Left(), 6
    {
      hide ParseForNumeric, ParseExpr, ParseStep, ParseLoopBody, ExprTree, StmtTrees, StmtTree, StepBuilt, ChainDone, ExprOk, StmtOk, BlockOk, Built, Now, AddCell, Seen, Full, Rest, Left, Starts;
      ghost var s0 := Now();
      id, s := 0, BreakStmt;
      var first, last, step := 0, 0, 0;
      ghost var a, b, st := NilLit, NilLit, None;
      ForNumericStep(Rest(), tokens[name].text, Scope());
      ok, first, a := Expression(1);
      ghost var s1 := Now();
      if ok {
        ok := Match(Comma);
      }
      if ok {
        ok, last, b := Expression(1);
      }
      ghost var s2 := Now();
      if ok {
        ok, step, st := Step();
      }
      if ok {
        ghost var s3 := Now();
        var body;
        ghost var code;
        ok, body, code := LoopBody();
        if ok {
          var n := Fresh(ForNumericNode, name, NO_LINKS.(a := first, b := last, c := step, d := body));
          s := ForNumeric(tokens[name].text, a, b, st, code);
          ForNumericBuilt(s0, s1, s2, s3, Now(), n, tokens, s, first, last, step, body);
          ok, id := NewNode(n);
        }
      }
    }

    /** The step of a numeric loop, if there is one. */
    method Step() returns (ok: bool, id: nat, ghost st: Option<Expr>)
      modifies this
      ensures Kept()
      ensures Reads(ParseStep(old(Rest()), old(Scope())), ok, st, Rest(), Full())
      ensures ok ==> StepBuilt(old(Now()), Now(), st, id)
      decreases Left(), 6
    {
      hide ParseStep, ParseExpr, ExprTree, ExprOk, Built, Now, AddCell, Seen, Full, Rest, Left, Starts;
      id, st := 0, None;
      StepStep(Rest(), Scope());
      ok := true;
      var stepped := Match(Comma);
      if stepped {
        ghost var e;
        ok, id, e := Expression(1);
        st := Some(e);
      }
    }

    method GenericFor(forToken: nat) returns (ok: bool, id: nat, ghost s: Stmt)
      modifies this
      ensures Kept()
      ensures Reads(ParseForGeneric(old(Rest()), old(Scope())), ok, s, Rest(), Full())
      ensures ok ==> Built(old(Now()), Now(), StmtTree(s), id)
      decreases Left(), 0
    {
      hide ParseForGeneric, NameTail, ParseExprList, ParseLoopBody, NameTrees, ExprTrees, StmtTrees, StmtTree, ListDone, ChainDone, ExprsOk, StmtOk, BlockOk, Built, Now, AddCell, Seen, Full, Rest, Left, Starts;
      ghost var s0 := Now();
      id, s := 0, BreakStmt;
      var names, values := 0, 0;
      ghost var ns, vs: seq<Expr> := [], [];
      ForGenericStep(Rest(), Scope());
      ok, names, ns := NameList();
      ghost var s1 := Now();
      if ok {
        ok := Match(In);
      }
      if ok {
        ok, values, vs := ExpressionList();
      }
      if ok {
        ghost var s2 := Now();
        var body;
        ghost var code;
        ok, body, code := LoopBody();
        if ok {
          var n := Fresh(ForGenericNode, forToken, NO_LINKS.(list1 := names, list2 := values, a := body));
          s := ForGeneric(ns, vs, code);
          ForGenericBuilt(s0, s1, s2, Now(), n, tokens, s, names, values, body);
          ok, id := NewNode(n);
        }
      }
    }

    method ReturnStatement(returnToken: nat) returns (ok: bool, id: nat, ghost s: Stmt)
      modifies this
      ensures Unmoved() && Owes(1, 0)
      ensures Reads(ParseReturn(old(Rest()), old(Scope())), ok, s, Rest(), Full())
      ensures ok ==> Built(old(Now()), Now(), StmtTree(s), id)
      decreases Left(), 7
    {
      hide ParseReturn, ParseExprList, ExprTrees, StmtTree, ListDone, EndsReturn, ExprsOk, StmtOk, Built, Now, AddCell, Seen, Full, Rest, Left, Starts;
      ghost var s0 := Now();
      id, s := 0, BreakStmt;
      var values := 0;
      ghost var vs: seq<Expr> := [];
      ok := true;
      ReturnStep(Rest(), Scope());
      if ReturnsNothing() {
        NothingListed(s0);
      } else {
        ok, values, vs := ExpressionList();
      }
      if ok {
        var _ := Match(Semicolon);
        var n := Fresh(ReturnNode, returnToken, NO_LINKS.(list1 := values));
        ReturnBuilt(s0, Now(), n, tokens, vs, values);
        ok, id := NewNode(n);
        s := ReturnStmt(vs);
      }
    }

    predicate ReturnsNothing()
      reads `current
      ensures ReturnsNothing() == EndsReturn(Rest())
    {
      current >= |tokens| || tokens[current].kind in {Kind.EOF, Kind.End, Kind.Else, Kind.Elseif, Kind.Semicolon}
    }

    /** Is the node at `id` one that can be assigned to? */
    predicate IsLvalueNode(id: nat)
      reads `nodes
    {
      0 < id <= |nodes| && (nodes[id - 1].kind == VariableNode || nodes[id - 1].kind == FieldNode || nodes[id - 1].kind == IndexNode)
    }

    /** The parser looks at the kind of the node it has just built. */
    lemma NodeKind(s0: Store, e: Expr, id: nat)
      requires Built(s0, Now(), ExprTree(e), id)
      ensures IsLvalueNode(id) == IsLvalue(e)
      ensures 0 < id <= |nodes| && (nodes[id - 1].kind == CallNode <==> e.Call?)
    {
      hide Built, ExprTrees, FieldTrees, StmtTrees, NameTrees;
      RootTag(s0, Now(), ExprTree(e), id);
      assert Now().cells[id - 1] == Seen(nodes[id - 1], tokens);
    }

    method ExpressionStatement() returns (ok: bool, id: nat, ghost s: Stmt)
      modifies this
      ensures Kept()
      ensures Reads(ParseExprStmt(old(Rest()), old(Scope())), ok, s, Rest(), Full())
      ensures ok ==> Built(old(Now()), Now(), StmtTree(s), id) && Left() < old(Left())
      decreases Left(), 6
    {
      hide ParseExprStmt, ParseExpr, ParseAssign, ExprTree, StmtTree, IsLvalueNode, ExprOk, StmtOk, Built, Now, AddCell, Seen, Full, Rest, Left, Starts;
      ghost var s0 := Now();
      id, s := 0, BreakStmt;
      var start := current;
      var first;
      ghost var e;
      ExprStmtStep(Rest(), Scope());
      ok, first, e := Expression(1);
      if ok {
        NodeKind(s0, e, first);
        if Check(Equal) || Check(Comma) {
          ok, id, s := Assignment(s0, start, first, e);
        } else {
          ok := nodes[first - 1].kind == CallNode;
          if ok {
            var n := Fresh(ExprStatementNode, start, NO_LINKS.(a := first));
            CallStmtBuilt(s0, Now(), n, tokens, e, first);
            ok, id := NewNode(n);
            s := CallStmt(e);
          }
        }
      }
    }

    /** The rest of an assignment whose first destination has been parsed. */
    method Assignment(ghost s0: Store, start: nat, first: nat, ghost e: Expr) returns (ok: bool, id: nat, ghost s: Stmt)
      requires Built(s0, Now(), ExprTree(e), first)
      modifies this
      ensures Unmoved() && Owes(0, 1) && (ok ==> Kept())
      ensures Reads(ParseAssign(old(Rest()), e, old(Scope())), ok, s, Rest(), Full())
      ensures ok ==> Built(s0, Now(), StmtTree(s), id)
      decreases Left(), 7
    {
      hide ParseAssign, TargetTail, ParseExprList, ExprTree, ExprTrees, StmtTree, ListDone, IsLvalueNode, IsLvalue,
           ExprOk, ExprsOk, StmtOk, Built, Now, AddCell, Seen, Full, Rest, Left, Starts;
      id, s := 0, BreakStmt;
      AssignStep(Rest(), e, Scope());
      NodeKind(s0, e, first);
      ok := IsLvalueNode(first);
      if ok {
        var left, right := 0, 0;
        ghost var targets, values: seq<Expr> := [], [];
        ok, left, targets := Targets(s0, first, e);
        ghost var s1 := Now();
        if ok {
          ok := Match(Equal);
        }
        if ok {
          ok, right, values := ExpressionList();
        }
        if ok {
          var n := Fresh(AssignNode, start, NO_LINKS.(list1 := left, list2 := right));
          AssignBuilt(s0, s1, Now(), n, tokens, targets, left, values, right);
          ok, id := NewNode(n);
          s := Assign(targets, values);
        }
      }
    }

    /** The list of destinations, the first of which has been parsed. */
    method Targets(ghost s0: Store, first: nat, ghost e: Expr) returns (ok: bool, head: nat, ghost targets: seq<Expr>)
      requires Built(s0, Now(), ExprTree(e), first)
      modifies this
      ensures Unmoved() && Owes(0, 1)
      ensures Reads(TargetTail(old(Rest()), [e], old(Scope())), ok, targets, Rest(), Full())
      ensures ok ==> ListDone(s0, Now(), ExprTrees(targets), head)
      decreases Left(), 6
    {
      hide TargetTail, ParseExpr, ListDone, ListBuilt, AddEntry, ExprTree, ExprTrees, IsLvalueNode, IsLvalue, ExprOk, ExprsOk,
           Built, Now, AddCell, Seen, Full, Rest, Left, Starts;
      ghost var c := Scope();
      var tail;
      FirstListed(s0, Now(), e, first);
      ok, head, tail := Append(0, 0, first);
      targets := [e];
      while ok && Check(Comma)
        invariant Unmoved() && Owes(0, 1)
        invariant Goes(TargetTail(old(Rest()), [e], c), ok, TargetTail(Rest(), targets, c), Full())
        invariant ok ==> ListBuilt(s0, Now(), ExprTrees(targets), head, tail)
        decreases ok, Left()
      {
        ghost var t;
        ok, head, tail, t := NextTarget(s0, targets, head, tail);
        targets := targets + [t];
      }
      if ok {
        TargetStep(Rest(), targets, c);
        ListEnds(s0, Now(), ExprTrees(targets), head, tail);
      }
    }

    /** One more destination. */
    method NextTarget(ghost s0: Store, ghost targets: seq<Expr>, head: nat, tail: nat)
        returns (ok: bool, head': nat, tail': nat, ghost t: Expr)
      requires Check(Comma) && ListBuilt(s0, Now(), ExprTrees(targets), head, tail)
      modifies this
      ensures Kept() && (ok ==> Left() < old(Left()))
      ensures Goes(TargetTail(old(Rest()), targets, old(Scope())), ok, TargetTail(Rest(), targets + [t], old(Scope())), Full())
      ensures ok ==> ListBuilt(s0, Now(), ExprTrees(targets + [t]), head', tail')
      decreases Left(), 5, 1
    {
      hide TargetTail, ParseExpr, ListBuilt, AddEntry, ExprTree, ExprTrees, IsLvalueNode, IsLvalue, ExprOk, ExprsOk,
           Built, Now, AddCell, Seen, Full, Rest, Left, Starts;
      ghost var s1 := Now();
      var id;
      head', tail' := head, tail;
      TargetStep(Rest(), targets, Scope());
      Advance();
      ok, id, t := Expression(1);
      if ok {
        NodeKind(s1, t, id);
        ok := IsLvalueNode(id);
      }
      if ok {
        NextListed(s0, s1, Now(), targets, head, tail, t, id);
        ok, head', tail' := Append(head, tail, id);
      }
    }

    // ---- whole programs --------------------------------------------------------------------

    /** Parse everything. On success the arena holds the program the grammar reads and nothing
        else: following its links from the root gives back the program's statements and meets
        every node and every list entry exactly once. A source is refused for its grammar, or with
        an arena that is full; the arenas cannot fill up on a source with few enough tokens. */
    method Parse() returns (ok: bool, root: nat, ghost code: seq<Stmt>)
      requires current == 0 && nodes == [] && lists == [] && Scope() == Ctx(false, false)
      modifies this
      ensures Kept()
      ensures Reads(ParseProgram(tokens), ok, code, Rest(), Full())
      ensures ok ==> IsProgram(Now(), root, code)
      ensures 2 * |tokens| < nodeCap && |tokens| < listCap ==> ok == ParseProgram(tokens).Ok?
    {
      hide ParseProgram, BlockLoop, ChainDone, StmtTrees, BlockOk, IsProgram;
      ProgramStep(tokens);
      assert Rest() == tokens && Now() == EMPTY;
      ok, root, code := Block({});
      if ok {
        WholeProgram(Now(), root, code);
        ok := Match(Kind.EOF);
      }
    }
  }
}
