# The Book engine, verified

A Book is a script in a subset of Lua that the engine reads, runs against one target inside a
capture session, and whose results it publishes only if the run was complete and, if its network
actions were counted, there is evidence of them. This project models the engine and proves what its
parts promise each other:

- what the lexer accepts, the string decoder decodes, so no run meets a string it cannot decode
  (`Strings`, `Literals`, `Soundness`);
- what the parser accepts, the executor never rejects as malformed (`Soundness`, `Executor`);
- what is staged can be written, and what is written can be read back (`Persist`, `Commit`);
- what is published is what the source emitted when it ran to its end, and of its traffic all is in
  evidence that was read before its transport was closed (`Publication`, `Natives`, `BookRun`).

`dafny verify dfyconfig.toml` checks the whole project.

## How it is organised

| part | modules | what they hold |
|---|---|---|
| lexer | `Lexis`, `Lexing`, `Spellings`, `Strings`, `Rendering`, `Lexicon` | the lexical grammar as functions of source and position; the cursor as a class; tiling and positions; the decoder; tokens written back as source; every word, operator and escape by its spelling |
| parser | `Tokens`, `Syntax`, `Grammar`, `GrammarSteps`, `Printing`, `Literals`, `Grouping`, `Sentences` | what the recursive descent computes, as functions on the tokens left; printing with parentheses where they are needed and parsing back; which operator binds more tightly; the tokens of each form |
| arena | `Arena`, `Unfolding`, `Trees`, `Building`, `ParserSteps`, `Parsing` | the layout of a tree in the two index-based arenas; following the links; the parser as a class that appends and patches |
| interpreter | `Values`, `Heap`, `Semantics`, `SemanticsSteps`, `Shapes`, `Executor` | the meaning of a program as functions on the heap; the tree walk over the arena as a class that refines them |
| properties of runs | `Invariants`, `Soundness`, `Scoping`, `Tables`, `Operators`, `Meanings`, `Control`, `Engine` | what every run keeps; scopes as a stack of maps; tables as finite maps; operator laws; what operators give, in plain arithmetic and order; which way control goes; from source bytes to a finished run |
| libraries | `Patterns`, `PatternTheory`, `Matching`, `PatternLaws`, `Substitution`, `Templates`, `StringLibrary`, `TableLibrary` | the pattern matcher, what the smallest patterns accept, substitution, what templates stand for, iteration, numerals in a base, insertion and removal |
| publication | `Session`, `Output`, `Persist`, `Rendered`, `Commit`, `Publication`, `Natives`, `BookRun` | the capture session as a state machine and as a class; staging; the `.out` file; atomic replacement; one whole run, from its captured packets and from its source |
| modules and arguments | `Modules`, `Arguments`, `Conventions` | module names, paths and the recursive loader; the quoting automaton; the texts, digits and conditions that the rest of the program sees |

Code that changes things step by step in the source is a class or a method here, proved equal to a
specification function (`Gives`, `Does`, `Flows`, `Reads`, `Scanned` and `Reports` say so); the
theorems are about those functions. The specification functions return the whole new state, so a
method that skips a step or takes the wrong branch does not meet its contract.

Two kinds of theorems say that the functions are the right ones. Round trips, invariants and
refinements relate them to one another. `Lexicon`, `Grouping`, `Sentences`, `Meanings`, `Control`,
`PatternLaws`, `Templates` and `Conventions` say what they give without naming the tables and tests
that they use: operator classes, byte classes, keywords and file texts are written out there once
more, numbers are compared by `<`, and a value counts as true if it is neither nil nor false.

Three oracles stand for what the model does not compute. `Heap.World` says which allocations
succeed, when the deadline has passed, how numerals are read and shown, and what natives do: what
a native asks of the runtime next may depend on every event of the run so far, so a native can keep
state, and two calls with the same arguments can go differently. `Natives.Natives` says what natives
other than `emit` and `bail` do to the session; `Publication.Circumstances` and `Commit.Luck` say
what network, clock and disk do. Everything is proved for all of them.

## What the code does that one might not expect

- Parentheses leave no node, so `(f())` is not cut down to one value (book_parser.c:840-854).
- A local declared again in the same scope overwrites its binding (book_runtime.c:581-589).
- `~` on a value that is not a number fails without recording a message (book_runtime.c:1546-1556);
  the model's refusal without a reason.
- The guard of floor division lets a quotient of exactly 2^63 through, because that is what
  `(double)INT64_MAX` is, and the cast after it overflows (book_runtime.c:1920-1932).
  `Operators.FloorLaw` is the exact condition and `Operators.FloorOverflows` the input.
- `%` and a capital letter that names no class accept every byte but that letter, because the
  complement is taken of the letter itself (book_stdlib.c:885-895); `PatternLaws.ClassIs`.
- The width of a bracket set that does not match is looked up only if the set rejects byte 0
  (book_stdlib.c:1203-1231). `PatternTheory.WidthSeen` is the exact condition and
  `PatternTheory.MisreadExample` an input where it matters; `PatternTheory.MisreadGroup` is one where
  a bracket inside such a set captures.
- `^` matches at position 0 wherever the search starts (book_stdlib.c:1339-1352). A substitution
  with an anchored pattern therefore fails as soon as a second search is made
  (`Substitution.AnchoredGsub`), and an iteration over one can go on for ever
  (`StringLibrary.IterationEnds`).
- The gate is looked at once before an action and once when the action is counted. If the deadline
  passes in between, the action happens uncounted, and a complete run can have no evidence of it
  (`Session.ActionIsCounted`, `Publication.RunCounts`, `Publication.LateExample`).
- The last packets of a complete run can be missing without making it incomplete: when the transport
  is closed, a frame that cannot be recorded ends the drain but changes only a reason that is not
  there yet (book_session.c:818-822, book_session.c:1126-1138). A frame is not recorded if it is
  empty, of the other link type, or cannot be written; a part of its record can be at the end of the
  file. `Publication.CompleteEvidence` is the exact condition and `Publication.LostExample` two inputs.
- `bail`, an output limit, and the byte and read limits of the capture overwrite an earlier reason with
  their own (book_native.c:1277-1280, book_native.c:1446-1449, book_session.c:233-237,
  book_session.c:824-829); other calls only give a reason where there is none
  (`Publication.ReasonChanges`). What is kept is that a reason stays a reason and never becomes complete.
- A module whose load fails keeps its entry as loading, so requiring it again reports a circular
  import (book_module.c:514-661).

## Model

| member | source | states |
|---|---|---|
| Lexing.Lexer.Advance | src/books/book_lexer.c:101-127 | One logical character is passed; CRLF counts as one, and the recorded line and column stay those of the bytes passed (`Valid`). |
| Lexing.Lexer.SkipIgnored | src/books/book_lexer.c:322-376 | Passes exactly the whitespace and line comments; refuses a long-bracket comment. |
| Lexing.Lexer.Word | src/books/book_lexer.c:378-426 | Records the identifier or keyword at the cursor; refuses the three unsupported keywords. |
| Lexing.Lexer.Numeral | src/books/book_lexer.c:428-561 | Records the numeral at the cursor, or refuses it: hexadecimal prefix, one point, exponent, no letter right after. |
| Lexing.Lexer.Quoted | src/books/book_lexer.c:563-722 | Records a string without its quotes, or refuses it for an unknown escape, a bare end of line or a missing quote. |
| Lexing.Lexer.Operator | src/books/book_lexer.c:749-1000 | Records the longest operator at the cursor. |
| Lexing.Lexer.Emit | src/books/book_lexer.c:239-269 | A token is recorded exactly if there are fewer than the limit. |
| Lexing.Lexer.Tokenize | src/books/book_lexer.c:1002-1114 | Succeeds if and only if the source is short enough, is made of tokens, and there are not too many; then it has recorded exactly those tokens. |
| Lexing.PlaceNext | src/books/book_lexer.c:101-127 | The line and column after one more logical character, as a function of the source prefix. |
| Lexis.OperatorSpelled | src/books/book_lexer.c:749-1000 | The bytes at the cursor are those of the operator that is recognised. |
| Spellings.LexTiles | src/books/book_lexer.c:1061-1109 | Accepted tokens tile the source: only blanks and string quotes lie between them, each is spelled as its kind demands, and the end of the source comes last. |
| Spellings.TiledInOrder | src/books/book_lexer.c:1061-1109 | Tokens are ordered, disjoint and in range. |
| Spellings.TiledWithin | src/books/book_lexer.c:101-127 | The line and column of every token are the function of the source before it; the last token is the end, at the source length. |
| Spellings.TokenSpelt | src/books/book_lexer.c:378-722 | Whatever is recognised at a position begins there, is not empty, and is spelled as its kind demands. |
| Spellings.StringLocal | src/books/book_lexer.c:563-722 | Where a string literal closes does not depend on what surrounds it. |
| Rendering.RenderedLexes | src/books/book_lexer.c:1002-1114 | The spellings of any list of tokens that are spelled as their kinds demand, a string between whichever quote it can stand between, are lexed to that list and the end of the source. |
| Rendering.LexedIsSpelt | src/books/book_lexer.c:1002-1114 | Every token of an accepted source is spelled as its kind demands, and writing the tokens with spaces between them gives a source of the same tokens. |
| Rendering.NumberReads | src/books/book_lexer.c:428-561 | Every hexadecimal or decimal numeral, with point and exponent, is lexed whole. |
| Lexicon.KeywordsAre | src/books/book_lexer.c:25-45 | Each of the 19 keywords, standing before a blank, is one token of its own kind; the words are listed. |
| Lexicon.OperatorsAre | src/books/book_lexer.c:724-1000 | Each of the 31 operators, brackets and separators, standing before a blank, is one token of its own kind; the spellings are listed. |
| Lexicon.NameIs | src/books/book_lexer.c:378-426 | Every other word of letters, digits and underscores is a name. |
| Lexicon.BlankIs | src/books/book_lexer.c:322-376 | White space, whose six bytes are listed, is skipped. |
| Lexicon.TokenIs | src/books/book_lexer.c:322-376 | Nothing but white space and comments is. |
| Lexicon.CommentIs | src/books/book_lexer.c:322-376 | A comment is skipped up to the end of its line, unless it opens a long bracket, which is refused. |
| Lexicon.LineIs | src/books/book_lexer.c:101-127 | A line feed, a carriage return, or both together end a line; the column counts bytes from its start. |
| Strings.AcceptedIsDecoded | src/books/book_lexer.c:1268-1401 | Every string token of an accepted source is decoded, to no more bytes than the token has. |
| Strings.EscapedDecodes | src/books/book_lexer.c:563-722 | The escaped literal of any byte string is accepted between either kind of quote, anywhere, and decodes to that byte string. |
| Strings.EscapeDecodes | src/books/book_lexer.c:1268-1401 | An escape that the lexer passes is one that the decoder knows, and both agree on where it ends. |
| Strings.DecodeIsLocal | src/books/book_lexer.c:1268-1401 | What a literal stands for depends on its own bytes alone, not on the source around it. |
| Strings.DecodeString | src/books/book_lexer.c:1268-1401 | Fills the buffer with exactly the decoded bytes and a zero byte; succeeds if and only if the token is a string within the source, the buffer is longer than the token, and every escape is known. |
| Strings.UnescapeAt | src/books/book_lexer.c:1301-1391 | One escape sequence: simple, hexadecimal, decimal, skipped whitespace, or line end. |
| Lexicon.EscapeIs | src/books/book_lexer.c:1301-1391 | The byte of each one-letter escape, by its number; a backslash before any other byte is refused. |
| Lexicon.HexIs | src/books/book_lexer.c:1261-1266 | `\x` and two hexadecimal digits, of either case, stand for sixteen times the first plus the second. |
| Lexicon.DecimalIs | src/books/book_lexer.c:1301-1391 | A backslash and three digits stand for that byte, up to 255, and are refused beyond. |
| Lexicon.LineEscapeIs | src/books/book_lexer.c:1301-1391 | A backslash at the end of a line stands for a line feed, and `\z` with the white space behind it for nothing. |
| Printing.ExprParses | src/books/book_parser.c:1001-1057 | Printing any expression, with parentheses where its level asks for them, and parsing it at that level gives back the same tree, whatever follows that does not continue it. |
| Printing.OperandParses | src/books/book_parser.c:739-958 | An operand is read as the base of the field accesses, indexings and calls that follow it. |
| Printing.BinaryReached | src/books/book_parser.c:1001-1057 | Left- and right-associative chains are regrouped as they were printed. |
| Printing.UnaryReached | src/books/book_parser.c:960-999 | A prefix operator binds more tightly than every binary operator. |
| Printing.TableParses | src/books/book_parser.c:381-526 | Positional, named and indexed fields are read back in order. |
| Printing.FunctionParses | src/books/book_parser.c:528-654 | Parameters, `...` and the body of a function literal are read back, in a fresh loop and vararg context. |
| Printing.ArgsParse | src/books/book_parser.c:656-737 | The arguments of a call are read back. |
| Printing.StmtParses | src/books/book_parser.c:1825-1883 | Printing any statement and parsing it gives back the same statement. |
| Printing.BlockParses | src/books/book_parser.c:1915-1963 | Printing any block with `;` after each statement and parsing it up to a stop token gives back the same block. |
| Printing.IfParses | src/books/book_parser.c:1242-1370 | All arms of a conditional and its `else` are read back. |
| Printing.WhileParses | src/books/book_parser.c:1372-1432 | A while loop is read back. |
| Printing.ForNumericParses | src/books/book_parser.c:1434-1651 | A numeric loop, with or without a step, is read back. |
| Printing.ForGenericParses | src/books/book_parser.c:1434-1651 | A generic loop is read back. |
| Printing.AssignParses | src/books/book_parser.c:1693-1823 | Multiple assignments are read back, destinations and values. |
| Printing.LocalParses | src/books/book_parser.c:1059-1165 | Local declarations are read back. |
| Printing.ReturnParses | src/books/book_parser.c:1653-1691 | A return statement is read back together with the separator it swallows. |
| Printing.ProgramParses | src/books/book_parser.c:1965-2021 | Printing any well-scoped program and parsing it gives back exactly that program. |
| Printing.ParsedIsPrintable | src/books/book_parser.c:1965-2021 | Whatever is accepted is well-scoped, so printing what was read gives a source of that same tree. |
| Grouping.TwoOperators | src/books/book_parser.c:296-334 | For any operators p and q and names a, b, d, the tree read from `a p b q d`: the operator of the later of ten listed classes takes the middle name; within a class the left one does, and the right one only for `..`. |
| Grouping.PrefixOperator | src/books/book_parser.c:960-1057 | A prefix operator takes the name next to it, on either side of a binary operator of any class. |
| Grouping.PrefixChain | src/books/book_parser.c:960-999 | Prefix operators take one another from the inside out, and a field comes before them. |
| Grouping.GroupedParses | src/books/book_parser.c:1001-1057 | Every tree of names, fields and operators whose operators stand to each other as the listed classes ask is read from its tokens without any parentheses. |
| Grouping.OneToken | src/books/book_parser.c:739-958 | The expression that each literal or name is by itself. |
| Sentences.AssignmentIs | src/books/book_parser.c:1693-1823 | The tokens of an assignment to one name and to two. |
| Sentences.LocalIs | src/books/book_parser.c:1059-1165 | The tokens of local names with and without values. |
| Sentences.ConditionIs | src/books/book_parser.c:1242-1370 | The tokens of a condition with one arm, and with two and an `else`. |
| Sentences.WhileIs | src/books/book_parser.c:1372-1432 | The tokens of a while loop. |
| Sentences.NumericIs | src/books/book_parser.c:1434-1651 | The tokens of a numeric loop, with and without a step, and of a `break` in it. |
| Sentences.GenericIs | src/books/book_parser.c:1434-1651 | The tokens of a generic loop. |
| Sentences.CallIs | src/books/book_parser.c:656-737 | The tokens of a call, and of a return. |
| Sentences.FunctionIs | src/books/book_parser.c:528-654 | The tokens of a function of a table with extra arguments. |
| Sentences.LocalFunctionIs | src/books/book_parser.c:1059-1165 | The tokens of a local function. |
| Sentences.BareArgument | src/books/book_parser.c:656-737 | A string or a table behind any callee is its one argument. |
| Sentences.SeparatorsAre | src/books/book_parser.c:1915-1963 | Semicolons can be left out: a block of any statements is the same with and without them, unless a statement begins with neither a name nor a keyword, or follows a return without values. |
| Sentences.TableIs | src/books/book_parser.c:381-526 | The tokens of a table with its three kinds of fields. |
| Sentences.PartsAre | src/books/book_parser.c:739-958 | The tokens of an index, a field, and a function as a value. |
| Grammar.ParseProgram | src/books/book_parser.c:1965-2021 | An accepted program is well-scoped: `break` only in loops of the same function, `...` only in variadic functions, only assignable destinations. |
| Grammar.ParseStmt | src/books/book_parser.c:1825-1883 | An accepted statement is well-scoped in the loop and vararg context it is read in, and takes at least one token. |
| Grammar.ParseFunctionBody | src/books/book_parser.c:612-630 | A function body is checked in a context of its own. |
| Literals.ProgramRead | src/books/book_parser.c:1965-2021 | A program read from tokens whose strings can all be decoded has only strings that can be decoded, in its functions and everywhere else. |
| Parsing.Parser.NewNode | src/books/book_parser.c:169-184 | A node is appended and its 1-based id returned, or the arena is full. |
| Parsing.Parser.Append | src/books/book_parser.c:235-258 | A list entry is appended and linked from the previous last entry of its list; head and tail are maintained. |
| Parsing.Parser.Link | src/books/book_parser.c:260-276 | The previous statement is linked to the next one. |
| Parsing.Parser.Expression | src/books/book_parser.c:1001-1057 | Reads what the grammar reads at this level and grows the arena by exactly the layout of that tree; the tokens read pay for what is allocated. |
| Parsing.Parser.Prefix | src/books/book_parser.c:960-999 | The same for prefix operators. |
| Parsing.Parser.Primary | src/books/book_parser.c:739-958 | The same for operands with field accesses, indexings and calls; parentheses leave no node. |
| Parsing.Parser.CallArguments | src/books/book_parser.c:656-737 | The same for the arguments of a call, as a list. |
| Parsing.Parser.ExpressionList | src/books/book_parser.c:336-379 | The same for expression lists. |
| Parsing.Parser.Table | src/books/book_parser.c:381-526 | The same for table constructors, whose node is allocated before its fields and given its list at the end. |
| Parsing.Parser.FunctionBody | src/books/book_parser.c:528-654 | The same for functions; loop depth and vararg permission are restored on every exit. |
| Parsing.Parser.Block | src/books/book_parser.c:1915-1963 | The same for blocks, chained through `next`. |
| Parsing.Parser.Statement | src/books/book_parser.c:1825-1883 | The same for statements. |
| Parsing.Parser.IfStatement | src/books/book_parser.c:1242-1370 | The same for conditionals. |
| Parsing.Parser.WhileStatement | src/books/book_parser.c:1372-1432 | The same for while loops. |
| Parsing.Parser.NumericFor | src/books/book_parser.c:1434-1651 | The same for numeric loops. |
| Parsing.Parser.GenericFor | src/books/book_parser.c:1434-1651 | The same for generic loops. |
| Parsing.Parser.LocalStatement | src/books/book_parser.c:1059-1165 | The same for local declarations. |
| Parsing.Parser.FunctionStatement | src/books/book_parser.c:1167-1240 | The same for function declarations with dotted names. |
| Parsing.Parser.ReturnStatement | src/books/book_parser.c:1653-1691 | The same for return statements. |
| Parsing.Parser.ExpressionStatement | src/books/book_parser.c:1693-1823 | The same for calls and assignments; other expressions are refused. |
| Parsing.Parser.Parse | src/books/book_parser.c:1965-2021 | On success the arena holds exactly the program the grammar reads. It is refused for its grammar or with an arena that is full; a source of fewer than 65536 tokens is accepted if and only if it is grammatical, as long as memory holds out. |
| ParserSteps.WholeProgram | src/books/book_parser.c:1965-2021 | The arena of a finished parse unfolds to the program from its root, and the walk meets every node and every list entry exactly once. |
| Unfolding.ArenaIsTree | src/books/book_parser.c:169-276 | Following the links of the layout of any block gives back the block and meets all ids 1..count exactly once, although table nodes precede their fields. |
| Unfolding.TreeUnfolds | src/books/book_parser.c:169-184 | Wherever the layout of a tree lies in an arena, following its links gives back the tree and meets exactly its own ids. |
| Trees.StmtSlotted | src/books/book_parser.c:1825-1883 | No construct stores two of its parts in the same link field. |
| Building.MoreListed | src/books/book_parser.c:235-258 | Appending an entry and patching the last link extends a list and leaves the finished subtrees before it as they were. |
| Building.MoreChained | src/books/book_parser.c:260-276 | Linking one statement more extends a block and leaves the finished statements as they were. |
| Building.CloseTable | src/books/book_parser.c:400-525 | Giving the early table node its list at the end completes the layout of the table. |
| Semantics.Eval | src/books/book_runtime.c:2017-2328 | Evaluation terminates within the budget: every step is counted, the count stays within the limit, and both depths are restored. |
| Semantics.Exec | src/books/book_runtime.c:2517-3150 | Execution of a statement terminates within the budget and restores both depths. |
| Semantics.CallValue | src/books/book_runtime.c:3274-3407 | A call, and everything it calls, terminates within the budget, at most 64 calls deep, and restores the depth on success and on failure. |
| Values.AsInteger | src/books/book_runtime.c:712-746 | A number is an integer exactly if it is integral and within 64 bits. |
| Executor.Runtime.constructor | src/books/book_runtime.c:3520-3569 | A runtime starts with the given heap, in the program of the Book. |
| Executor.Runtime.Step | src/books/book_runtime.c:240-272 | A tick looks at the deadline every 256 steps, notes for the session that it has passed, and refuses the step after the limit. |
| Executor.Runtime.Eval | src/books/book_runtime.c:2017-2328 | Evaluating a node of the arena does to the heap, in place, exactly what the expression it holds means. |
| Executor.Runtime.EvalTable | src/books/book_runtime.c:1285-1461 | The same for table constructors, with the last value expanded. |
| Executor.Runtime.EvalList | src/books/book_runtime.c:1198-1274 | The same for lists, whose last value is expanded, up to 64 values. |
| Executor.Runtime.EvalBinary | src/books/book_runtime.c:1619-2015 | The same for binary operators, with short circuits; an operator outside the switch is refused as unsupported. |
| Executor.Runtime.EvalUnary | src/books/book_runtime.c:1463-1574 | The same for unary operators; an operator outside the switch is refused as unsupported. |
| Executor.Runtime.CallValue | src/books/book_runtime.c:3274-3407 | The same for calls of functions and natives, whose next request may depend on all requests of the run before it; the current program is the same afterwards. |
| Executor.Runtime.RunClosure | src/books/book_runtime.c:3293-3399 | A function runs in the arena it was made in, and the program of the caller is restored on every exit. |
| Executor.Runtime.BindArguments | src/books/book_runtime.c:3193-3272 | The same for parameters and extra arguments. |
| Executor.Runtime.ExecBlock | src/books/book_runtime.c:3152-3191 | The same for blocks. |
| Executor.Runtime.Exec | src/books/book_runtime.c:2517-3150 | The same for statements; every place where a node of an impossible kind would be met is an assertion. |
| Executor.Runtime.ExecIf | src/books/book_runtime.c:2517-3150 | The same for conditionals. |
| Executor.Runtime.ExecWhile | src/books/book_runtime.c:2800-3122 | The same for while loops. |
| Executor.Runtime.ExecNumeric | src/books/book_runtime.c:2800-3122 | The same for numeric loops. |
| Executor.Runtime.ExecGeneric | src/books/book_runtime.c:2800-3122 | The same for generic loops. |
| Executor.Runtime.AssignTo | src/books/book_runtime.c:2330-2446 | The same for one destination of an assignment. |
| Executor.Runtime.DefineName | src/books/book_runtime.c:571-608 | Declares a name in one scope, or overwrites it there. |
| Executor.Runtime.AssignName | src/books/book_runtime.c:671-710 | Assigns to the innermost binding, or makes a global. |
| Executor.Runtime.Find | src/books/book_runtime.c:528-569 | The linear search finds the innermost scope that binds the name, and its first binding. |
| Executor.Runtime.SetEntry | src/books/book_runtime.c:845-905 | Stores in place, removes by shifting, or grows the table. |
| Executor.Runtime.RemoveEntry | src/books/book_runtime.c:4042-4092 | Removes a key in place. |
| Executor.Runtime.TableLength | src/books/book_runtime.c:961-991 | Counts the consecutive keys from 1. |
| Executor.Runtime.Declare | src/books/book_runtime.c:3409-3484 | `book { name = ... }` is accepted once, outside modules, with the name of the source. |
| Executor.Runtime.Execute | src/books/book_runtime.c:3571-3618 | Running the whole program in its arena is exactly what the program means; success clears a fault that a native went on after. |
| Executor.Runtime.ExecModule | src/books/book_runtime.c:3620-3709 | A module runs in its own arena, one module deeper; program and depth are restored on every exit. |
| Soundness.RunSound | src/books/book_runtime.c:3571-3618 | A run of a well-formed Book from a sound heap ends in a sound heap: limits kept, counters equal to the sums over all scopes and tables, and no failure at all, reported or passed over by a native, that only an ill-formed program could cause (`break` out of a function, bad destination, `...` without a call, unsupported operator, a string that cannot be decoded). |
| Soundness.EvalSound | src/books/book_runtime.c:2017-2328 | Every expression keeps the heap sound and yields live values, at most 64. |
| Soundness.StmtSound | src/books/book_runtime.c:2517-3150 | Every statement keeps the heap sound; `break` only leaves it inside a loop. |
| Soundness.CallValueSound | src/books/book_runtime.c:3274-3407 | Every call, and everything it calls, keeps the heap sound. |
| Soundness.ModuleSound | src/books/book_runtime.c:3620-3709 | A module keeps the heap sound and no `break` leaves it. |
| Soundness.NativeSound | src/books/book_runtime.c:3274-3407 | Whatever natives ask of the runtime, each request depending in any way on all events of the run before it, keeps the heap sound. |
| Invariants.TableSetFine | src/books/book_runtime.c:845-905 | A store keeps the heap sound: keys stay different, the counter stays the sum and within its limit. |
| Invariants.DefineFine | src/books/book_runtime.c:571-608 | A declaration keeps the heap sound, and the name is bound afterwards. |
| Invariants.NewScopeFine | src/books/book_runtime.c:466-482 | A new scope keeps the heap sound. |
| Invariants.CallScopeExists | src/books/book_runtime.c:2099-2134 | Every chain of scopes ends at the globals, so there always is an innermost call. |
| Invariants.BoundLater | src/books/book_runtime.c:528-710 | A name once bound in a scope stays bound there. |
| Engine.RunBook | src/books/book_exec.c:19-219 | From source bytes to a finished run: refused exactly if it is not made of tokens; what runs is what the source means; the heap is sound at the end and no failure, reported or passed over, is one of an ill-formed program; for sources of fewer than 65536 tokens it is refused by the parser if and only if it is not a program. |
| Engine.EveryProgramHasSource | src/books/book_parser.c:1965-2021 | Every well-scoped program whose names, numerals and strings can be spelled is the meaning of some source bytes: its printed tokens with spaces between them. |
| Engine.MeaningIsFit | src/books/book_parser.c:1965-2021 | Only well-formed programs have a source: well-scoped ones whose strings can all be decoded. |
| Engine.LexedDecodes | src/books/book_lexer.c:1268-1401 | Every string token of an accepted source, as the parser sees it, can be decoded. |
| Operators.FloorLaw | src/books/book_runtime.c:1894-1945 | The quotient of a floor division is an integer, and quotient times divisor plus remainder is the dividend; they are the floor and a remainder smaller than the divisor with its sign if and only if the exact quotient is below 2^63. |
| Operators.FloorOverflows | src/books/book_runtime.c:1920-1932 | 2^63 divided by 1 passes the guard and gives whatever the cast gives. |
| Operators.BitwiseBits | src/books/book_runtime.c:1619-2015 | Each bit of a bitwise result combines the bits of the operands, and there are no more than 64. |
| Operators.AndPlusOr | src/books/book_runtime.c:1619-2015 | What two words have in common (`&`) and what they have together add up to their sum, and the difference of the two is `a ~ b`. |
| Operators.ComplementLaw | src/books/book_runtime.c:1463-1574 | The complement is the complement of the 64-bit word, and its own inverse. |
| Operators.ShiftLaws | src/books/book_runtime.c:1576-1617 | Shifts by negative counts go the other way, shifts by 64 or more give 0, and shifting left and back keeps exactly the low bits. |
| Operators.CompareMirrors | src/books/book_runtime.c:1619-2015 | String comparison is antisymmetric, and 0 only for equal strings. |
| Operators.CompareTransits | src/books/book_runtime.c:1619-2015 | String comparison is transitive. |
| Operators.PrefixFirst | src/books/book_runtime.c:1619-2015 | A string comes before every longer string that begins with it. |
| Operators.ComparisonsAgree | src/books/book_runtime.c:1619-2015 | The four comparisons agree with one another on numbers and on strings, and are refused on everything else. |
| Meanings.ArithmeticIs | src/books/book_runtime.c:1872-1904 | The operators `+`, `-`, `*` and `/` give the sum, difference, product and quotient of any numbers. |
| Meanings.NoQuotient | src/books/book_runtime.c:1892-1920 | None of the three divisions has a result for zero. |
| Meanings.OrderIs | src/books/book_runtime.c:1740-1870 | The four comparisons of numbers are their order, and the tests of equality are equality of any two values. |
| Meanings.TextOrderIs | src/books/book_runtime.c:1740-1870 | The four comparisons of strings are the order of their first differing bytes, a string coming before every longer one that begins with it. |
| Meanings.ConcatIs | src/books/book_runtime.c:1138-1182 | `..` gives the left text followed by the right one, numbers as they are shown; no other operand has a text. |
| Meanings.OperandsAre | src/books/book_runtime.c:1740-2015 | Arithmetic is refused unless both operands are numbers, and a comparison unless both are numbers or both strings. |
| Meanings.PrefixesAre | src/books/book_runtime.c:1463-1574 | Negation, the length of a string, and `not`, which is true for nil and false alone; what the first two refuse. |
| Meanings.NotInteger | src/books/book_runtime.c:712-746 | A bitwise operator refuses an operand that is not a 64-bit integer, with the reason for the first such one. |
| Meanings.BitsAre | src/books/book_runtime.c:1944-2012 | For all 64-bit integers: a bit of what `&` gives is set if it is set in both words, of what bitwise or gives if in one at least, of what binary `~` gives if in exactly one. |
| Meanings.ShiftsAre | src/books/book_runtime.c:1576-1617 | For all 64-bit integers: `x << n` is congruent to x times two to the n modulo two to the 64, `x >> n` is the unsigned word divided by two to the n, a negative count shifts the other way, and from 64 on the result is 0. |
| Meanings.KeysAre | src/books/book_runtime.c:818-843 | Strings and 64-bit integers are keys; for every other value reading and storing fail, with the reason. |
| Control.LogicalIs | src/books/book_runtime.c:1647-1700 | `and` looks at its right operand if the first value of the left one is neither nil nor false, `or` if it is; otherwise that value is the result. |
| Control.IfIs | src/books/book_runtime.c:2725-2798 | Of any condition: guards are looked at in order, each exactly once, up to the first whose value is neither nil nor false; the block of that arm runs, that of `else` if there is none, or nothing. |
| Control.WhileIs | src/books/book_runtime.c:2800-2850 | Of any while loop: the condition is evaluated before each round; the loop is over when its value is nil or false, after a `break`, or when the body leaves it otherwise. |
| Control.CountingIs | src/books/book_runtime.c:2931-2990 | Of any numeric loop: round i runs the body with the counter at first + i * step; the loop is over at the first such number past the last one, which is included, or when a round leaves it or no step is left. |
| Control.StartIs | src/books/book_runtime.c:2852-2929 | A numeric loop starts only with three numbers and a step that is not zero; the step is 1 if it is not given. |
| Control.DrawingIs | src/books/book_runtime.c:2993-3122 | Of any generic loop: the source is called with the fixed value and the first value of the round before; the loop is over when it gives nil or nothing, or when a round leaves it. |
| Control.ListIs | src/books/book_runtime.c:1198-1274 | A list of expressions, evaluated in order, gives the first value of each but the last and all values of the last, and fails beyond 64. |
| Control.ConstructorIs | src/books/book_runtime.c:1285-1461 | The values of a constructor of constants are stored at 1, 2, and so on, and nothing else is. |
| Control.SwapIs | src/books/book_runtime.c:2588-2635 | All values of an assignment are taken before any is stored: `a, b = b, a` exchanges any two names that are bound, in whatever scopes. |
| Control.StoredIsRead | src/books/book_runtime.c:845-933 | What is stored at a key of any table is read there, and every other key keeps its value. |
| Control.ClosureIs | src/books/book_runtime.c:3293-3399 | A call gives what the body returned, or nothing if it came to its end; the body runs in a new scope below the one the function was made in. |
| Control.DeclarationIs | src/books/book_runtime.c:3409-3484 | A declaration is accepted if and only if it is the first, outside modules, and a table whose name is the Book's. |
| Control.DepthIs | src/books/book_runtime.c:3274-3407 | Calls nest 64 deep at most and the depth is counted down again; a value that is no function cannot be called. |
| Control.SourceIs | src/books/book_runtime.c:2993-3022 | A generic loop asks the first of its values; the second is fixed, and the third is what the first round is given. |
| Control.FieldIsIndex | src/books/book_runtime.c:2179-2285 | `t.n` and `t["n"]` read the same value. |
| Control.LengthIs | src/books/book_runtime.c:961-991 | The length of a table is n if and only if there are values at 1 to n and none at n + 1. |
| Control.FirstFault | src/books/book_runtime.c:186-238 | The first fault of a run is the one that is reported. |
| Control.RunIs | src/books/book_runtime.c:3571-3618 | A Book succeeds if and only if it comes to its end or returns, and has been declared. |
| Scoping.LookupIsStack | src/books/book_runtime.c:635-669 | Reading a name reads the innermost frame of the stack of maps that has it, nil if there is none. |
| Scoping.AssignUpdates | src/books/book_runtime.c:671-710 | Assigning changes exactly the innermost frame that has the name, or the globals. |
| Scoping.DefineUpdates | src/books/book_runtime.c:571-608 | Declaring changes exactly the innermost frame, or fails and changes none. |
| Scoping.StackUpdated | src/books/book_runtime.c:528-710 | Every other stack sees a change exactly where it shares the changed scope. |
| Scoping.NewScopePushes | src/books/book_runtime.c:466-482 | A new scope pushes an empty frame and leaves all other stacks as they were. |
| Scoping.ChainToGlobals | src/books/book_runtime.c:528-569 | Every chain of parents is finite, strictly older at each step, and ends at the globals. |
| Scoping.CallBinds | src/books/book_runtime.c:3193-3272 | A call sees its parameters, nil where an argument is missing, and exactly the extra arguments if it is variadic. |
| Scoping.VarargsOfCall | src/books/book_runtime.c:2099-2134 | `...` in any scope of a variadic call yields the extra arguments of that call, whatever has run in between. |
| Scoping.CallScopeLater | src/books/book_runtime.c:2099-2134 | Which call a scope belongs to, and the extra arguments of that call, never change. |
| Scoping.BlockInCall | src/books/book_runtime.c:2099-2134 | The scope of a block belongs to the call around it. |
| Tables.SetIsUpdate | src/books/book_runtime.c:845-905 | A store is an update of the finite map (nil removes); it fails exactly for an invalid key, and for a value at a new key without room, and then changes nothing. |
| Tables.RemoveIsUpdate | src/books/book_runtime.c:4042-4092 | A removal removes the key from the map; it fails exactly for an invalid key. |
| Tables.MapIsSound | src/books/book_runtime.c:845-905 | The map has as many entries as the table has rows, at most 65536, and no entry is nil. |
| Tables.BorderIsLeast | src/books/book_runtime.c:961-991 | The length is the n such that 1..n have values and n + 1 has none. |
| TableLibrary.Insert | src/books/book_stdlib.c:2921-3011 | `table.insert` moves the values from the position up by one and stores the new one, or changes nothing; it fails exactly for its arguments and for lack of room for one more row. |
| TableLibrary.Remove | src/books/book_stdlib.c:3013-3110 | `table.remove` gives the value at the position and moves those after it down; outside 1..n it gives nil and changes nothing; it fails exactly for its arguments. |
| TableLibrary.InsertionIsSequence | src/books/book_stdlib.c:2943-3009 | Insertion of a value is sequence insertion on the values at 1..n. |
| TableLibrary.RemovalIsSequence | src/books/book_stdlib.c:3035-3109 | Removal is sequence deletion on the values at 1..n. |
| Matching.MatchFrom | src/books/book_stdlib.c:1076-1323 | The matcher with its record updated in place finds exactly what the specification finds; a failure leaves the record as it was. |
| Matching.MatchGroup | src/books/book_stdlib.c:1076-1169 | A capture group, which commits to the first match inside it. |
| Matching.MatchFewest | src/books/book_stdlib.c:1234-1322 | Lazy repetition, fewest first. |
| Matching.MatchMost | src/books/book_stdlib.c:1234-1322 | Greedy repetition, most first. |
| Matching.MatchAtom | src/books/book_stdlib.c:982-1030 | Whether a single-byte item accepts a byte, and where it ends if it does. |
| Matching.MatchSet | src/books/book_stdlib.c:928-980 | Whether a bracket set accepts a byte. |
| Matching.Find | src/books/book_stdlib.c:1325-1375 | The search, as specified. |
| PatternLaws.ClassIs | src/books/book_stdlib.c:869-898 | For every byte: `%` and a class letter accept exactly the bytes of the class, which are listed, and its capital exactly the others; any other letter stands for itself, and any other capital for all bytes but itself. |
| PatternLaws.ByteIs | src/books/book_stdlib.c:982-1030 | A dot accepts every byte, and a byte without a meaning of its own itself alone. |
| PatternLaws.RangeIs | src/books/book_stdlib.c:928-980 | For every byte and any two ends: `[x-y]` accepts exactly the bytes from x to y, both included, and `[^x-y]` exactly the others. |
| PatternLaws.SetIs | src/books/book_stdlib.c:928-980 | A set of bytes accepts exactly those, unless it lists byte 0 behind a quantifier. |
| PatternLaws.NegatedSetIs | src/books/book_stdlib.c:928-980 | A negated set of bytes accepts exactly the others. |
| PatternLaws.RepeatIs | src/books/book_stdlib.c:1234-1322 | At the end of a pattern `*` takes as many of a byte as follow, `+` the same but one at least, `?` one if there is one, `-` none. |
| PatternLaws.FarAndNear | src/books/book_stdlib.c:1234-1322 | `.-y` goes up to the first y and `.*y` up to the last. |
| PatternLaws.GroupIs | src/books/book_stdlib.c:1076-1169 | A group of literal bytes followed by literal bytes matches those and captures where the group matched. |
| PatternLaws.LiteralSearch | src/books/book_stdlib.c:1325-1375 | Searching for any text without special bytes finds its first place from the start on, and nothing if there is none. |
| PatternLaws.AnchorsAre | src/books/book_stdlib.c:1325-1375 | With `^` in front a text is found at the start only, and with `$` behind it as well only in a subject that is the text. |
| PatternLaws.EndIs | src/books/book_stdlib.c:1100-1115 | With `$` behind it a text is found at the end, if it is there and not before the start of the search. |
| PatternTheory.MatchDecides | src/books/book_stdlib.c:1171-1322 | A pattern without groups and misread sets matches if and only if some repetition counts fit, and the match is that of the first counts in the order their quantifiers try them. |
| PatternTheory.SearchIsLeftmost | src/books/book_stdlib.c:1325-1375 | An unanchored search finds the leftmost position where the pattern matches. |
| PatternTheory.CapturesKept | src/books/book_stdlib.c:1076-1169 | Every match leaves earlier captures as they were; those it adds lie within it, in the order in which they begin, any two of them nested or one after the other, and there are never more than the limit. |
| PatternTheory.CaptureForEachGroup | src/books/book_stdlib.c:1076-1169 | If no set can be misread, a match enters exactly the groups of the pattern, nested as they are there, and its captures are one for each group, in the order in which the pattern opens them. |
| PatternTheory.CapturesAreGroups | src/books/book_stdlib.c:1076-1169 | With any pattern, the captures of a match are those of the groups it entered, outer before inner and left before right, each around those of the groups inside it. |
| PatternTheory.GroupsCommit | src/books/book_stdlib.c:1076-1169 | Every group of a match holds the first match of its own inside from where it begins. |
| PatternTheory.WidthSeen | src/books/book_stdlib.c:1203-1231 | The matcher sees the true width of an item unless the item does not accept the next byte and is a set that accepts byte 0 or a dangling `%`: exactly then. |
| PatternTheory.StepIsTrue | src/books/book_stdlib.c:1171-1322 | An item that cannot be misread is matched by its true width. |
| PatternTheory.MisreadExample | src/books/book_stdlib.c:1203-1231 | `[^a]*` does not match at "a", although zero repetitions fit. |
| PatternTheory.MisreadGroup | src/books/book_stdlib.c:1203-1231 | A bracket inside a misread set opens a group: `[*(.)%z]`, which has none, captures. |
| Substitution.Gsub | src/books/book_stdlib.c:2226-2478 | `gsub` succeeds exactly if every replacement has a text, the result fits the buffer, and there is memory for the result string, and then gives exactly the specified text and count. |
| Substitution.AppendReplacement | src/books/book_stdlib.c:2152-2224 | A replacement is appended whole, or refused exactly if it has no text or does not fit. |
| Substitution.Buffer.Append | src/books/book_stdlib.c:129-175 | Bytes are appended exactly if the buffer stays within its limit. |
| Substitution.GsubWeaves | src/books/book_stdlib.c:2285-2455 | The result is exactly the gaps between the matches interleaved with the replacements, and the count is the number of matches. |
| Substitution.MatchesInOrder | src/books/book_stdlib.c:2285-2455 | Matches are disjoint and increasing, and there are at most length + 1. |
| Substitution.GsubReproduces | src/books/book_stdlib.c:2285-2455 | Replacing every match with itself (`%0`, or a callback that returns nil or false) reproduces the subject, for every pattern that is not anchored. |
| Substitution.AnchoredGsub | src/books/book_stdlib.c:1339-1352 | A substitution with an anchored pattern fails if and only if a second search is made after the first match, or the first replacement has no text. |
| Templates.PlainIs | src/books/book_stdlib.c:2160-2168 | A template without `%` stands for itself. |
| Templates.JoinedIs | src/books/book_stdlib.c:2152-2224 | Two templates one behind the other, the first ending in no cut escape, stand for their texts joined, and have a text exactly if both have. |
| Templates.EscapeIs | src/books/book_stdlib.c:2170-2220 | `%%` stands for `%`, `%0` for the match, `%k` for the bytes of the k-th capture if there are so many; any other escape, and a lone `%`, has no text. |
| Templates.LiteralGsub | src/books/book_stdlib.c:2285-2455 | Substituting a template without `%` for a literal text replaces every place of it from left to right, and counts them. |
| Templates.PlainGsub | src/books/book_stdlib.c:2285-2455 | For any pattern that is not anchored, a template without `%` is put in place of every match, and nothing else is changed; an anchored one fails or does the same. |
| StringLibrary.MatchIterator.Next | src/books/book_stdlib.c:1982-2094 | The iterator gives the next match and moves past it. |
| StringLibrary.IterationIsMatches | src/books/book_stdlib.c:1982-2094 | Iterating over a pattern that is not anchored gives exactly the matches a substitution replaces. |
| StringLibrary.IterationEnds | src/books/book_stdlib.c:1339-1352 | An iteration ends if and only if the pattern is not anchored, does not match at the start, or matches the whole subject there. |
| StringLibrary.ToNumber | src/books/book_stdlib.c:543-588 | A numeral in a base is accepted if and only if it is an optional sign and one or more digits of the base whose value fits in 64 bits, and then read exactly. |
| StringLibrary.NumeralReads | src/books/book_stdlib.c:543-588 | Writing any 64-bit number in a base, with spaces around it, and reading it back gives that number. |
| StringLibrary.GuardIsExact | src/books/book_stdlib.c:567-579 | The guard against overflow refuses a digit exactly if the value would leave 64 bits. |
| Conventions.DigitIs | src/books/book_stdlib.c:543-588 | What each digit is worth in any base that has it, letters counting on from 10 in either case. |
| Session.BookSession.constructor | src/books/book_session.c:566-691 | A prepared session: its evidence file has a header that is accounted for, and the gate is open. |
| Session.BookSession.SetLinkType | src/books/book_session.c:172-193 | The link type changes only before the first packet. |
| Session.BookSession.Capture | src/books/book_session.c:196-253 | One packet is recorded whole and accounted for, or none is accounted for: then at most a part of its record is in the file, and at a byte limit the capture stops with a limit error. |
| Session.BookSession.Drain | src/books/book_session.c:733-832 | What the device gives is recorded if it belongs to the target, up to the read limit. |
| Session.BookSession.OpenTcp | src/books/book_session.c:835-886 | Opens or reuses the one stream of the session, through the gate. |
| Session.BookSession.OpenUdp | src/books/book_session.c:889-930 | Opens or reuses the one socket of the session, through the gate. |
| Session.BookSession.Transfer | src/books/book_session.c:933-1117 | Reads or writes through the open transport, through the gate, with evidence drained afterwards. |
| Session.BookSession.Finalize | src/books/book_session.c:1120-1171 | Closes the transport, collects the last evidence and closes the evidence file, once. |
| Session.RecordedFine | src/books/book_session.c:196-253 | A recorded packet keeps the books balanced: packets and bytes equal what is in the file, which has one link type and is within its limits. |
| Session.DrainedFine | src/books/book_session.c:733-832 | Draining keeps the books balanced, never takes evidence back, and gives a session a reason to end only by stopping its capture. |
| Session.DrainIs | src/books/book_session.c:733-832 | A drain keeps exactly the frames of the target that it reads, in order, up to the first that is empty, of another link type than the file has, over a limit, or not written whole; of that one it leaves what was written. Why it ends, whether it succeeds, and which reason it leaves the session with follow from the readings alone. |
| Session.TcpOpenedFine | src/books/book_session.c:835-886 | Opening a stream does nothing at all if the gate is closed or a transport is bound already, and binds the session to it otherwise. |
| Session.UdpOpenedFine | src/books/book_session.c:889-930 | Opening a socket puts nothing on the wire, and does nothing if the gate is closed. |
| Session.TransferredFine | src/books/book_session.c:933-1117 | A transfer does nothing at all without an open gate and a transport. |
| Session.ActionIsCounted | src/books/book_session.c:726-730 | The gate is looked at twice: an action of the transport goes uncounted if and only if the time runs out between the two looks. |
| Session.ClosedSound | src/books/book_session.c:1120-1171 | A finalized session is closed and balanced, has a reason, and kept the one it had unless the last evidence met a limit; finalizing again changes nothing. |
| Session.ClosedIs | src/books/book_session.c:1120-1171 | Closing a session keeps exactly the frames that the last drain reads up to the first that the file does not take, and changes the reason exactly if that drain meets a limit or there is none. |
| Session.LaidIs | src/books/book_session.c:196-253 | Frames leave complete records in the file, and after them at most a part of one record, which is not empty and not whole. |
| Conventions.GateIs | src/books/book_session.c:707-716 | Unless evidence is being captured, its file is open, time is left, no limit has been reached and the session is at work, no operation of the transport does anything. |
| Conventions.OpeningIs | src/books/book_session.c:835-886 | Through an open gate a stream is asked for exactly if there is a port, no transport yet, and the target can be reached. |
| Conventions.EvidenceIs | src/books/book_session.c:196-253 | The evidence file is a header of 24 bytes and for each packet 16 bytes and the packet, all of link type 101 or all of link type 1. |
| Publication.Perform | src/books/book_native.c:1410-1463 | One native call does to session and stage what is specified; an output limit and a bail set the reason. |
| Publication.Execute | src/books/book_exec.c:19-219 | A run is complete exactly if it reached its end and no native had a reason to end it; reasons given by natives are never flattened. |
| Publication.DemandEvidence | src/books/books.c:420-448 | A complete run that has touched the network must have evidence. |
| Publication.RunOne | src/books/books.c:362-523 | The file is replaced if and only if the session ends complete, the directory is safe and the commit goes through; for a valid name only the disk can keep the commit from that; success changes that file alone, failure changes no file but a temporary one, and at every moment the final name has the old file or the complete new one. |
| Publication.PerformedKeeps | src/books/book_exec.c:118-218 | No native call makes a run complete, takes back a reason, evidence or a staged record, or opens the gate again. |
| Publication.ReasonChanges | src/books/book_native.c:1267-1449 | A native call changes the reason of a session if and only if it is a bail, an emission over a limit, or a drain that meets a limit, and the reason is not that already, or there is no reason yet and a frame cannot be recorded or the deadline has passed. |
| Publication.RunKeeps | src/books/book_exec.c:118-218 | The same over any sequence of native calls. |
| Publication.FinishedIsBacked | src/books/books.c:417-506 | Over every run: the session ends finalized, balanced and with a reason; it is complete only if the gate was open, the source was run to its end, no native had a reason, the scan was noted, and counted traffic is in evidence. |
| Publication.CompleteEvidence | src/books/books.c:417-449 | A complete run has every frame of the target that it reads in evidence if and only if the file takes all those that the drain after its stream or before the end of its datagram socket reads. It always has all that were read earlier, and of the last ones those before the first that the file does not take. |
| Publication.LostExample | src/books/book_session.c:1126-1138 | A complete run with one counted action whose last frame is written in part, or is of the other link type, and is not in evidence. |
| Publication.StagedByCalls | src/books/book_exec.c:118-218 | What a complete run leaves to be written is exactly what its native calls staged. |
| Publication.OnlyTheDisk | src/books/books.c:475-506 | Whatever natives stage can be written: for a valid name a commit goes through if and only if a temporary name is found, all writes succeed, and closing and renaming do. |
| Publication.PublishedIsBacked | src/books/books.c:449-506 | A published file reads back as the name and exactly the staged records of a complete, evidenced run. |
| Publication.RunCounts | src/books/book_session.c:726-730 | Over a whole run, the actions that were not counted are exactly those for which the time ran out between the two looks at the gate. |
| Publication.LateExample | src/books/book_session.c:867-875 | A run whose only action is late is complete with an empty evidence file. |
| BookRun.RunFromSource | src/books/books.c:362-523 | From source bytes to the published file: the file is replaced if and only if the session is complete after what the interpreter reports of that source and directory and disk allow it. Then the source is a program, run to its end as it means, in a sound heap; there was no bail and no passed deadline; counted traffic left evidence; and the file reads back as exactly the records the program emitted, in order. Otherwise it is as it was. |
| BookRun.CompleteIsBacked | src/books/books.c:420-506 | A complete run has evidence of counted traffic and was left alone by bails and deadlines, and its file reads back as the records of the emissions that were answered. |
| Natives.StagedIsEmitted | src/books/book_native.c:1181-1295 | After any events, the stage holds exactly the records of the emissions that the native has answered, in order. |
| Natives.AllQuiet | src/books/book_native.c:1181-1463 | If the session has no reason to end, the deadline was never seen to have passed, nothing bailed, and no emission of a valid record for which there was memory has failed. |
| Conventions.EmitIs | src/books/book_native.c:1181-1295 | An emission gives a key, a value and perhaps a color, in this order; without one, or with nil, it is the default color. |
| Output.Stage.Emit | src/books/book_output.c:122-162 | A record is staged, refused, or over a limit, as specified; the stage is made when it is first needed, and its room doubles. |
| Output.EmittedHolds | src/books/book_output.c:122-162 | If memory is granted where it is needed, a record is staged if and only if the stage with it would still be within every limit, and is over the limit if it is valid and would not; an emission that stages nothing changes no record. |
| Output.ColorReads | src/books/book_output.c:7-43 | Color names are read back. |
| Conventions.RefusedIs | src/books/book_output.c:45-80 | If there is memory, a record is refused if and only if its key is empty, too long or has one of the bytes listed, or its value is too long or has a control byte other than the three listed. |
| Conventions.FileIs | src/books/book_persist.c:253-285 | The text of the file, line by line, with the color names and the digits of each byte written out. |
| Persist.SerializedSize | src/books/book_persist.c:122-171 | The computed size equals the number of bytes written; there is none exactly if a key or value cannot be written or the file would be too long. |
| Persist.StagedFits | src/books/book_persist.c:122-171 | Whatever can be staged passes the size check. |
| Persist.OutRoundTrip | src/books/book_persist.c:253-285 | A file written from a stage is read back as exactly the name and the records, in order; every line fits the reader. |
| Persist.HexReads | src/books/book_persist.c:324-350 | Hexadecimal digits are read back as the bytes they were written from. |
| Persist.ParseFile | src/books/book_persist.c:486-600 | The line-by-line reader gives exactly the specified artifact, or nothing. |
| Rendered.Render | src/books/book_persist.c:657-705 | The marking loops show records grouped by key in the order of their first record. |
| Rendered.EachShownOnce | src/books/book_persist.c:657-705 | Every record is shown exactly once. |
| Rendered.ShownInOrder | src/books/book_persist.c:657-705 | Of any two records shown one after the other, the first record with the key of the one comes before that of the other, or their keys are the same and the one was staged before the other. |
| Commit.OpenTemp | src/books/book_persist.c:173-207 | The temporary file gets the first of 100 names that is not in use. |
| Commit.WriteAll | src/books/book_persist.c:253-285 | The temporary file has the whole serialized stage exactly if every write succeeds, values being written as so many digits at a time; no other file is touched. |
| Commit.CommitOutput | src/books/book_persist.c:209-315 | Succeeds if and only if the run is complete, the directory is safe, the stage can be written and the disk plays along; at every step the final path has the old file or the complete new one. |
| Commit.StagedCommits | src/books/book_persist.c:209-315 | What a stage can hold is committed if and only if the disk allows it; no key and no size is in the way. |
| Commit.CommittedIsOldOrNew | src/books/book_persist.c:245-314 | After a commit the final path has the new file on success and the old one on failure. |
| Modules.CheckSegments | src/books/book_module.c:93-114 | The name check accepts exactly segments of name bytes with single dots between them. |
| Modules.CanonicalHasPath | src/books/book_module.c:270-365 | The component walk never finds a component of an accepted name malformed. |
| Modules.PathIsUnique | src/books/book_module.c:270-365 | Different remainders lead to different component paths. |
| Modules.NamesLeadApart | src/books/book_module.c:49-119 | Different accepted names of a namespace lead to different files. |
| Modules.Loader.Require | src/books/book_module.c:472-662 | Requiring a module does exactly what is specified: cached value, refusal of a circular import, limits, or load and run. |
| Modules.RequiredFine | src/books/book_module.c:514-661 | However deeply modules require one another, the loading entries are exactly the active requires as long as nothing has failed, no body is started twice, imports are completed first, and depth, count and source bytes stay within their limits. |
| Modules.RunIsOrderly | src/books/book_module.c:514-661 | Over a whole run: each body is run at most once, after those of its imports; after success nothing is left loading. |
| Modules.RequiredAgain | src/books/book_module.c:514-527 | Requiring a loaded module again, whatever has been required in between, changes nothing and gives the same value. |
| Modules.CompletedSorted | src/books/book_module.c:655-661 | Completing a module keeps the completion order a topological order of the imports. |
| Conventions.NameIs | src/books/book_module.c:49-119 | Any names with dots between them, behind one of the three listed prefixes, are a module name, and lead to a `.lua` file in the directories of all names but the last. |
| Conventions.ModuleIs | src/books/book_module.c:650-661 | A module that is loaded has the first value its body returned, or true if that is nil or there is none. |
| Arguments.ReadWord | src/books/book_args.c:15-75 | The next word as the quoting automaton reads it, in and out of quotes, within its buffer. |
| Arguments.ParseArguments | src/books/book_args.c:96-191 | The parameters of a command, or help, or a refusal, as specified. |
| Arguments.AcceptedIsFormed | src/books/book_args.c:124-188 | Every accepted command has at most 16 parameters with different valid names other than help, and values within their size. |
| Arguments.CommandRoundTrip | src/books/book_args.c:96-191 | Any such parameters, written as `--name=` and a quoted, escaped value, are read back exactly and in order. |
| Conventions.CommandIs | src/books/book_args.c:96-191 | A parameter is given as `--name=value` or as `--name value`, for any valid name and any value without spaces and quotes. |

## Left out

- Numbers are exact reals: rounding, infinities, NaN and negative zero of IEEE doubles are not modelled; `strtod` and `%.14g` are oracles of the world. What a cast that overflows gives is one too.
- Memory is an oracle that grants or refuses each allocation; byte counts of the runtime's memory limit and the growth of the parser's, the lexer's and the libraries' buffers are not modelled. The lexer has no allocation failure, the parser has smaller arenas instead.
- Meanings.ArithmeticIs: of numbers as exact reals; see the first line.
- Error messages and the line and column they carry are not modelled; failures carry a reason.
- The deadline is an oracle of the step count inside the interpreter and a time left at each look of the session.
- Parsing.Parser.Parse: for sources of 65536 tokens or more a refusal says that the grammar refuses the source or that an arena is full, not which node count would have been needed.
- Executor.Runtime.RunNative: natives are strategies over all events of the run so far, and each call of one asks only boundedly often; the natives that are modelled themselves are `book`, `table.insert`, `table.remove`, `gsub`, `gmatch` and `tonumber` with a base, and they are not tied to the strategies.
- PatternTheory.MatchDecides: patterns with groups are left out of the declarative meaning, because a group commits to its first inner match; what holds of them is in `CapturesAreGroups`, `GroupsCommit` and `CaptureForEachGroup`. The matcher's behaviour on misread sets is modelled, but its declarative meaning there is not.
- Substitution.Gsub: captures passed to a callback and the conversion of its result are part of the callback.
- StringLibrary.MatchIterator.Next: the iterator's state is a field here and an ordinary table there, which the Book could overwrite.
- `string.format`, `string.find`, `string.match`, `string.sub`, `string.byte`, `string.char`, `table.concat`, `pairs`, `ipairs`, `math.*`, `tostring` and decimal `tonumber` are not modelled; they would add easy members around the matcher, the tables and the number oracle.
- Modules.Loader.Require: running a module's body is the list of modules it requires, whether it then reaches its end, and what it returns; it is not tied to the executor's run of the same module.
- BookRun.RunFromSource: `emit` and `bail` are as they are written; what each request of another native did to the session is an oracle over the events of the run, and is not tied to the arguments of that native, nor its answer to what the session did.
- Publication.RunOne: takes what the interpreter reports as given; `BookRun.RunFromSource` takes it from the run of the source.
- Engine.RunBook: the reasons a session is given to have ended are those of `Publication.Executed`.
- Executor.Runtime.constructor: making the natives and libraries of a new runtime is not modelled; a runtime starts with a heap in which they are in place.
- Session.BookSession.constructor: of the ways in which preparing a session can fail only the byte limits are modelled; the others are the flag `started` of `Publication.Circumstances`.
- Session.BookSession.Capture: whether a frame belongs to the target is a flag of the frame; a link type is changed whole or not at all; byte counters do not wrap at 64 bits.
- Session.BookSession.OpenTcp: address resolution, local ports and the transport itself are answers of the world; TLS is not part of this model.
- Commit.CommitOutput: the directory is a map from names to contents; symbolic links, permissions and the best-effort sync of the directory are not modelled; the checks of the directory and of the path's length are the flag `safe`.
- Persist.OutRoundTrip: the sizes of a value's buffer and of the staged bytes are parameters, because the headers that define them are not part of this model; the colored display of a value is not modelled.
- Arguments.CommandRoundTrip: the word after the command's name is the Book's name as the caller gives it.
- The user interface, listings, the audit log, project runs over several targets, and the command dispatcher are not modelled.
