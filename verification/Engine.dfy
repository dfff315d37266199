/** From source bytes to a finished run: lexer, parser and executor one after the other. */
module Engine {
  import opened Tokens
  import opened Syntax
  import opened Grammar
  import Printing
  import opened Lexis
  import opened Lexing
  import opened Rendering
  import Spellings
  import Strings
  import opened Literals
  import opened ParserSteps
  import Building
  import opened Parsing
  import opened Trees
  import opened Unfolding
  import opened Shapes
  import opened Heap
  import opened Values
  import opened Semantics
  import opened SemanticsSteps
  import opened Invariants
  import opened Soundness
  import opened Executor

  /** The program a source stands for. */
  function Meaning(source: string): Option<seq<Stmt>> {
    var ls := Lex(source, 0);
    if ls.None? then None
    else
      var p := ParseProgram(TokensOf(source, ls.value));
      if p.Err? then None else Some(p.value)
  }

  /** Every well-scoped program has a source: its printed tokens with a space after each. */
  lemma EveryProgramHasSource(code: seq<Stmt>)
    requires BlockOk(code, Ctx(false, false)) && AllSpelt(Printing.ShowBlock(code))
    ensures Meaning(Rendered(Printing.ShowBlock(code))) == Some(code)
  {
    hide Lex, ParseProgram, BlockOk, AllSpelt, Rendered;
    var ts := Printing.ShowBlock(code);
    var source := Rendered(ts);
    Itself(source);
    RenderedLexes(source, 0, ts);
    Printing.ProgramParses(code);
    assert Fixed(Kind.EOF) == END;
  }

  lemma Itself(source: string)
    ensures Spellings.Holds(source, 0, source)
  {
  }

  /** The parser sees a string token as the text between its quotes, and that can be decoded. */
  lemma LexedDecodes(source: string)
    requires Lex(source, 0).Some?
    ensures TokensDecode(TokensOf(source, Lex(source, 0).value))
  {
    hide Lex, Strings.Decode;
    var ls := Lex(source, 0).value;
    var ts := TokensOf(source, ls);
    forall k | 0 <= k < |ts| && ts[k].kind == Kind.String ensures Strings.Decoded(ts[k].text).Some? {
      TokenAt(source, ls, k);
      Strings.AcceptedIsDecoded(source, 0, k);
      Strings.DecodeIsLocal(source, ls[k].offset, ls[k].offset + ls[k].length, 0);
    }
  }

  /** Only well-formed programs have a source: jumps and `...` are in place, and every string can be
      decoded. */
  lemma MeaningIsFit(source: string)
    requires Meaning(source).Some?
    ensures BlockFit(Meaning(source).value, Ctx(false, false))
  {
    hide Lex, ParseProgram, BlockOk, BlockDecodes, TokensDecode;
    LexedDecodes(source);
    ProgramRead(TokensOf(source, Lex(source, 0).value));
  }

  /** The source stands for a program, whose meaning in that state is r. */
  ghost predicate Yields(w: World, source: string, start: State, r: Result)
    requires start.instructions <= INSTRUCTION_LIMIT
  {
    Meaning(source).Some? && Semantics.Run(w, Meaning(source).value, start) == r
  }

  datatype Outcome =
    | NotTokens
    | NotProgram
    | Stopped(why: Option<Fault>)
    | Finished(values: seq<Value>)

  /** The heap a Book starts with: natives and libraries are in place and no Book code has run. */
  ghost predicate Initial(start: State) { Inv(start) && start.closures == [] && start.fault == NO_FAULT }

  ghost predicate ModulesLoaded(w: World, libraries: seq<Program>) {
    |libraries| == |w.modules| && forall i :: 0 <= i < |w.modules| ==> HoldsBlock(libraries[i], libraries[i].root, w.modules[i])
  }

  method ReadTokens(source: string, ls: seq<Lexeme>) returns (ts: seq<Token>)
    ensures ts == TokensOf(source, ls)
  {
    ts := [];
    var i := 0;
    while i < |ls|
      invariant i <= |ls| && ts + TokensOf(source, ls[i..]) == TokensOf(source, ls)
    {
      assert ls[i..][1..] == ls[i + 1..];
      ts := ts + [TokenOf(source, ls[i])];
      i := i + 1;
    }
  }

  /** A source is refused as not made of tokens exactly if it is not, and as not a program only if it
      is not one or an arena is too small for it. */
  ghost predicate Judged(source: string, nodeCap: NodeCap, listCap: ListCap, outcome: Outcome) {
    && (outcome.NotTokens? <==> |source| > SOURCE_LIMIT || Lex(source, 0).None? || |Lex(source, 0).value| > TOKEN_LIMIT)
    && (Meaning(source).None? ==> outcome.NotTokens? || outcome.NotProgram?)
    && (!outcome.NotTokens? && 2 * |Lex(source, 0).value| < nodeCap && |Lex(source, 0).value| < listCap ==>
          (outcome.NotProgram? <==> Meaning(source).None?))
  }

  /** If it is not refused, the run is what the program means, and ends in a sound heap. */
  ghost predicate RanAs(w: World, source: string, start: State, outcome: Outcome, final: State) {
    outcome.Stopped? || outcome.Finished? ==>
      && start.instructions <= INSTRUCTION_LIMIT
      && Yields(w, source, start, if outcome.Finished? then Vals(outcome.values, final) else Stop(final))
      && Inv(final) && Ext(start, final)
      && final.callDepth == start.callDepth && final.moduleDepth == start.moduleDepth
  }

  /** Run a Book. If its source is made of tokens and they are a program, the run is what the
      program means, and it ends in a sound heap: within its limits, with counters that add up,
      and with no complaint about an ill-formed program. */
  method RunBook(w: World, source: string, libraries: seq<Program>, start: State, nodeCap: NodeCap, listCap: ListCap)
    returns (outcome: Outcome, log: seq<Event>, ghost final: State)
    requires Initial(start) && WorldOk(w) && ModulesLoaded(w, libraries)
    ensures Judged(source, nodeCap, listCap, outcome)
    ensures RanAs(w, source, start, outcome, final)
    ensures log == final.log && (outcome.Stopped? ==> outcome.why == final.fault.first)
  {
    hide Lex, ParseProgram, HoldsBlock, BlockFit, Semantics.Run, Inv, Ext, WorldOk, IsProgram;
    log, final := start.log, start;
    var lexer := new Lexer(source);
    var ok := lexer.Tokenize();
    if !ok { return NotTokens, start.log, start; }
    var tokens := ReadTokens(source, lexer.tokens);
    var parser := new Parser(tokens, nodeCap, listCap);
    var root;
    ghost var code;
    ok, root, code := parser.Parse();
    if !ok { return NotProgram, start.log, start; }
    ProgramHeld(parser.Now(), root, code);
    var p := Program(Abstract(parser.nodes, parser.tokens), parser.lists, root);
    InitialFacts(start);
    var runtime := new Runtime(w, [p] + libraries, start);
    var vs;
    ok, vs := runtime.Execute(code);
    log, final := runtime.log, runtime.Now();
    MeaningIsFit(source);
    RunSound(w, code, start);
    outcome := if ok then Finished(vs) else Stopped(runtime.fault.first);
  }

  lemma ProgramHeld(s: Building.Store, root: nat, code: seq<Stmt>)
    requires IsProgram(s, root, code)
    ensures HoldsBlock(Program(s.cells, s.entries, root), root, code)
  {
    hide StmtTrees, UnfoldsChain;
  }

  lemma InitialFacts(start: State)
    requires Initial(start)
    ensures start.instructions <= INSTRUCTION_LIMIT && start.callDepth <= DEPTH_LIMIT && |start.scopes| > 0
    ensures forall i :: 0 <= i < |start.scopes| ==> start.scopes[i].parent <= i
  {
    hide TablesOk, ClosuresOk, CountsOk;
    forall i | 0 <= i < |start.scopes| ensures start.scopes[i].parent <= i {
      assert ScopeOk(start.scopes[i], i, |start.tables|, |start.closures|);
    }
  }
}
