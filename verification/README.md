# MiniJava compiler: verified model

This project models the parts of a MiniJava compiler (lexer, parser, pretty printer, semantic checks, lowering to a
control-flow graph, constant propagation, assembly passes) whose correctness is not visible from any single function, and
proves what they promise. Everything is checked by `dafny verify dfyconfig.toml`; nothing here was executed.

Where the source changes state in place (token cursor, printer flag, node labels, blocks, instruction lists, buffers,
symbol log), the model has a class with the same fields; each method is proved against a specification function, and the
theorems are about that function.

| area | files |
|---|---|
| expressions and statements, parsing and printing | Syntax, ExprGrammar, StmtGrammar, Grammar, ExprParser, ParserSound, ParserComplete, GrammarMatches, StmtParser, StmtMatches, Parser, Printer, Unambiguous, RoundTrip, Reprint, ReprintGrowth, StmtRoundTrip |
| constant propagation | FirmGraph, FirmPass, ConstProp, ConstPropInvariant, ConstPropSound, ConstPropSubst, ConstPropRest, ConstPropPass, ConstPropExact, ConstPropPhis, ConstPropLoopFree, ConstPropWalk, ConstPropStale, ConstPropAdrift, ConstPropSettle, ConstPropTurns, ConstPropLoop |
| control-flow lowering | Lowering, LoweringEdges, LoweringStuck, LoweringShape, LoweringCorrect, LoweringStmts, LoweringMethod, DefiniteReturn, FirmVisitor, CriticalEdges |
| assembly passes | Asm, AsmStack, AsmJump, AsmPeephole, AsmPeepholePasses, AsmExact, AsmPhi |
| lexer | Lexing, LexingExact, Lexer, Frontend |
| bookkeeping | SymbolTable, Mangling, UnusedFunctions, Wrappers |

## Assumptions and findings

- **Parsing.** The grammars of expressions and statements (`ExprGrammar`, `StmtGrammar`) are written down production by
  production, on tokens, without the parser's precedence table. A minus directly before an integer literal belongs to the
  literal. A phrase of a statement is closed if no `if` at its end is still open for an `else`.

- **Printing.** Whether a printed expression parses back is decided exactly by `RoundTrip.Faithful`. The printer fails on a
  member, call or index access whose base is a unary or binary expression and which is reached with the flag unset, and on
  an assignment directly left of an assignment; both are shown by concrete inputs. What is read back instead is
  `Reprint.Reread`. Printing that once more gives the same tokens exactly for expressions that are `Reprint.Stable`, and for
  statements exactly if all their expressions are, the property test/ast_idempotency.sh checks file by file; the exceptions
  are assignments to assignments such as `(a[-1] = b) = c`. The flag leaks: after a visit it is set exactly when the last
  literal visited was negative. Integer literals are taken to fit 32 bits.
- **Constant propagation.** Graphs are in SSA form with exact out-edges; only phis and blocks close cycles; every node is
  reachable from End; the start block holds nothing of mode X but its jump and Bad nodes; following first predecessors, none
  of them Bad, from the End node's block leads to the start block. A run executes whole blocks.
  The worklist need not become empty, for two reasons. An edge in unreachable blocks is enqueued again and again unless some
  edge into its block is Bad or decided (`AdriftNeverRests`, with a graph in `DeadJumpNeverRests`). And in loops whose
  condition depends on a phi of the loop, all blocks reached, labels and marks can chase each other for ever: links are
  overwritten, not joined, and a mark goes from taken to not taken. `LoopNeverRests` shows it for
  `x = a; do x = x + a while (b < x)`, whenever the loop is left after one turn with a new value. On graphs without cycles
  the exact condition is `LoopFreeRestsExactly`: no block but the start block has a jump or projection and no control
  predecessor. With loops, `LayeredComesToRest` gives a sufficient condition on the graph: no computed value depends on
  itself, and control goes back to the start block. It leaves out every loop with a counter. `Run` takes a bound on its rounds.
  Once the worklist is empty, operations other than phis are labelled exactly as their operands decide (`RestIsExact`). Phis
  need not be: marking an edge as not taken wakes no phi. `StalePhi` gives
  `x = a; while (false && x < b) x = b; return x`, where the phi of `x` stays bad although the edge back is excluded.
  `PhiAsLastSeen` says what the label is in general, `PhiConstantExactly` when it is the constant it could be, and
  `LoopFreePhisExact` that it always is on graphs without cycles.
- **Lowering.** Local variables are a store; libfirm's SSA construction is not visible. Every other operation is an event
  whose result may depend on all earlier events, which covers fields, arrays, calls, allocation and arithmetic. A negation
  whose value is needed, as in `b = !c`, is right for every operand but `&&` and `||` (further negations aside): for these
  its phi has two operands in a block with more predecessors (`NegationFits`), so they are outside the theorem; for
  `!(x && y)` a run that gets stuck is given (`NegatedAndStuck`).
- **Assembly.** Operands are 64 bits wide; slots below the frame pointer are cells of their own, which is right because slots
  that are handed out do not overlap (`ManagedSlotsApart`). Jump elision needs that of
  two jumps at the end of a block no comparison takes both, which the generator guarantees; the condition is exact. The
  peepholes change flags, so every conditional jump must have its own comparison in its block, as emitted. Merging add and
  sub assumes that the difference of the constants fits. The loops over `flattenedInstrs` compare with
  `size() - 1`, which is unsigned: on an empty list they read past the end, which vector::at answers with an exception.
  `run` skips blocks whose `instrs` is empty, so a block emptied by jump elision alone is not reached. Among the passes
  modelled, a block is reached with an empty list exactly if AsmStackOptimizer has erased all it had (`KeptNothing`, with a
  run in `DeadMovesFail`; AsmArrayOptimizer, which comes before the second move pass and is not modelled, has the same bound);
  the merging pass fails moreover on a block that has only two instructions which cancel. Phi copies are right if a
  predecessor of a block with phis has no other such successor, which splitting critical edges sees to, and if no operand
  is a conversion of an earlier phi of the same block: it shares the slot of that phi, and its new value is read
  (`ConvertedReadsNew`, with an input in `ConvertedDiffers`).
- **Lexer.** `lineState` is a static variable of the method; the model starts it at normal. Looking n tokens ahead reads
  n + 1 tokens, so an error may show one token early.
- **Symbol table.** Outside all scopes `isDefinedInCurrentScope` is true for every symbol. Scopes are numbered by depth, so
  a reused address is the worst case already.
- **Names.** Identifiers do not start with a digit. A single void parameter is mangled like no parameter; the semantic pass
  refuses such parameters.

## Model

| member | source | states |
|---|---|---|
| `GrammarMatches.ParserIsTheGrammar` | src/parser.cpp:485-752 | For every lexer output: the precedence parser returns an expression and the tokens behind it if and only if the expression grammar, one rule for assignments, or, and, equality, relational, additive, multiplicative, prefix and postfix expressions each, derives that expression from the tokens before them, and no operator of the rule or a tighter one, no postfix and no parenthesis behind a name follows |
| `StmtMatches.StatementParserIsTheGrammar` | src/parser.cpp:263-483 | For every lexer output: the statement parser returns a statement and the tokens behind it if and only if the statement grammar derives it from the tokens before them: a lone semicolon is the empty statement and leaves nothing in a block, branches may be unbraced, an else belongs to the nearest if that is still open, a declaration is told from a statement, return with or without a value |
| `ParserComplete.ClimbingIsTheGrammar` | src/parser.cpp:485-533 | The same for concrete trees, parentheses and the spelling of literals included: on lexer output the parser returns a tree and a rest if and only if that tree derives exactly the tokens before the rest, with left operands binding at least as tightly as their operator and right operands more tightly (equally for `=`) by the levels of the grammar rules, and neither an operator nor a postfix nor a parenthesis behind a name continues it |
| `ParserSound.PrecSound` | src/parser.cpp:515-533 | Whatever the climbing loop returns spells the tokens it consumed, obeys the grammar by the levels of its rules and binds at least as tightly as asked |
| `ParserComplete.PrecComplete` | src/parser.cpp:515-533 | Started on the tokens of any tree of the grammar, followed by anything that does not extend it, the parser reaches its loop with exactly that tree |
| `ParserSound.UnarySound` | src/parser.cpp:535-572 | Prefix operators: a minus before a literal becomes part of the literal, and the result still spells the tokens read |
| `ParserComplete.PostfixComplete` | src/parser.cpp:574-588 | Every chain of calls, fields and index accesses is parsed back from its tokens |
| `ParserSound.PrimarySound` | src/parser.cpp:590-658 | Every primary accepted spells its tokens; literals outside 32 bits are refused |
| `ParserSound.MemberSound` | src/parser.cpp:660-676 | Member access: the tree returned derives exactly the tokens read |
| `ParserSound.ArgumentsSound` | src/parser.cpp:688-714 | An argument list is a comma-separated sequence of grammar trees |
| `ParserSound.NewArraySound` | src/parser.cpp:716-752 | A new array expression derives its tokens, all dimensions counted |
| `ParserClass.Parser.PrecedenceParse` | src/parser.cpp:515-533 | The loop over `curTok` computes what the grammar function computes on the remaining tokens, and leaves the rest |
| `ParserClass.Parser.ParseUnaryExpr` | src/parser.cpp:535-572 | The prefix loop builds the same tree as the recursive reading of prefix operators |
| `ParserClass.Parser.ParsePostfixExpr` | src/parser.cpp:574-588 | The postfix loop agrees with the grammar function |
| `ParserClass.Parser.ParsePrimaryExpr` | src/parser.cpp:590-658 | Success, tree and remaining tokens agree with the grammar function |
| `ParserClass.Parser.ParseMemberAccess` | src/parser.cpp:660-676 | Calls and field accesses agree with the grammar function |
| `ParserClass.Parser.ParseArrayAccess` | src/parser.cpp:678-686 | Index access agrees with the grammar function |
| `ParserClass.Parser.ParseArgumentList` | src/parser.cpp:688-714 | The comma loop agrees with the grammar function |
| `ParserClass.Parser.ParseNewExpr` | src/parser.cpp:716-752 | Object and array creation agree with the grammar function |
| `ParserClass.Parser.ParseTypeName` | src/parser.cpp:217-261 | Types with their dimensions are read as the grammar function reads them |
| `ParserClass.Parser.ParseBraces` | src/parser.cpp:263-324 | A block is the sequence of its items, empty statements dropped |
| `ParserClass.Parser.ParseBlockStatement` | src/parser.cpp:326-361 | Lookahead decides between declaration and statement as in the grammar function |
| `ParserClass.Parser.ParseLocalVarDeclStmt` | src/parser.cpp:363-390 | Declarations agree with the grammar function |
| `ParserClass.Parser.ParseStatement` | src/parser.cpp:393-432 | Statements agree with the grammar function |
| `ParserClass.Parser.ParseIfStmt` | src/parser.cpp:434-451 | If statements agree with the grammar function |
| `ParserClass.Parser.ParseReturnStmt` | src/parser.cpp:453-470 | Return statements agree with the grammar function |
| `ParserClass.Parser.ParseWhileStmt` | src/parser.cpp:472-483 | While statements agree with the grammar function |
| `RoundTrip.RoundTripExact` | src/pprinter.hpp:243-363 | For every expression and either value of `requireParenthesis`: parsing the printed tokens returns that tree and consumes exactly those tokens if and only if the expression is Faithful, a condition checkable before printing |
| `RoundTrip.RoundTrip` | src/pprinter.hpp:295-363 | Expressions without member, call or index access on a unary or binary base and without an assignment directly left of an assignment survive printing and parsing, whatever the flag |
| `RoundTrip.NegatedBaseBreaks` | src/pprinter.hpp:309-312 | A field of a negated expression is printed so that it parses differently |
| `RoundTrip.LeftAssignmentBreaks` | src/pprinter.hpp:321-337 | An assignment on the left of an assignment is printed so that it parses differently |
| `RoundTrip.FaithfulIsStratified` | src/pprinter.hpp:349-363 | What the flag parenthesises is a tree of the grammar exactly for Faithful expressions |
| `Unambiguous.TokensDetermineTree` | src/pprinter.hpp:243-363 | Two printable trees of the same expression with the same tokens are the same tree, which gives the converse of the round trip |
| `Printer.PrettyPrinter.Visit` | src/pprinter.hpp:243-337 | The visitor writes exactly the tokens of the flagged concrete tree and leaves the flag as FlagAfter says, leaks included |
| `Printer.PrettyPrinter.MaybePlaceParenthesis` | src/pprinter.hpp:349-363 | Parentheses are written exactly when the flag is set on entry |
| `Printer.PrettyPrinter.VisitStatement` | src/pprinter.hpp:142-241 | Statements are printed token for token, the flag leaking from one to the next |
| `Printer.PrettyPrinter.VisitBlock` | src/pprinter.hpp:142-162 | Blocks, with the short form of a block without content |
| `Printer.PrettyPrinter.VisitIf` | src/pprinter.hpp:180-186 | Both branches are printed as blocks |
| `Printer.PrettyPrinter.PrintStatementAsBlock` | src/pprinter.hpp:195-209 | A branch that is no block gets braces of its own |
| `Printer.PrettyPrinter.PrintElseStatementAsBlock` | src/pprinter.hpp:211-230 | An empty else branch is dropped |
| `Reprint.PrintedIsReread` | src/pprinter.hpp:243-363 | For every expression, faithful or not, parsing the printed tokens succeeds, consumes exactly these tokens and returns the tree that Reread gives: a postfix binds to the last unparenthesised operand and assignments associate to the right |
| `Reprint.ReprintExact` | test/ast_idempotency.sh:1-60 | Printing, parsing and printing an expression again gives the same tokens if and only if no assignment has on its left something that prints as an assignment with a negative literal last before its sign |
| `Reprint.ReprintDiffers` | src/pprinter.hpp:321-337 | A concrete expression whose second printing differs: `(a[-1] = b) = c` |
| `StmtRoundTrip.PrintThenParse` | src/pprinter.hpp:142-241 | Parsing any printed statement consumes exactly the printed tokens and yields its normal form: braced branches, no empty else, no empty statements, and expressions as they are read back |
| `StmtRoundTrip.PrintIdempotent` | test/ast_idempotency.sh:1-60 | Printing a statement, parsing the tokens and printing what was parsed gives the same tokens if and only if each of its expressions is stable in this sense under the flag it is printed under; in any case the second printing is not shorter and leaves the same flag |
| `ReprintGrowth.ReprintNeverShorter` | src/pprinter.hpp:243-363 | For every expression the second printing has at least as many tokens as the first |
| `ConstPropSound.ConstantsAreSound` | src/const_prop_pass.hpp:284-452 | When the worklist is empty, in every run of the graph each executed node labelled with a constant has that value, and no executed node is labelled unknown |
| `ConstPropSound.OnlyMarkedEdges` | src/const_prop_pass.hpp:80-129 | When the worklist is empty, every control edge that a run crosses is marked as taken |
| `ConstPropSubst.SubstitutionKeepsRuns` | src/const_prop_pass.hpp:215-278 | Whichever nodes have been through substituteNode, the graph has exactly the runs it had: constants for labelled nodes, Jmp or Bad for decided edges, memory around folded divisions |
| `ConstPropInvariant.RoundKeeps` | src/const_prop_pass.hpp:284-452 | Every visit keeps the worklist invariant: a node that is not waiting is consistent with its operands and with the marked edges |
| `ConstPropInvariant.JoinCovers` | src/const_prop_pass.hpp:374-405 | The loop over phi operands covers every operand whose edge is not marked as not taken |
| `ConstPropInvariant.EdgeOtherwise` | src/const_prop_pass.hpp:80-129 | Marking one edge leaves every other control edge settled or waiting |
| `ConstPropExact.RestIsExact` | src/const_prop_pass.hpp:286-341 | When the worklist is empty every arithmetic, unary and comparison node and every projection of a result is labelled exactly as its operands decide: with the value if they are constants on which the operation is defined, bad only because of a bad operand or an undefined operation, unknown only because of an unknown operand |
| `ConstPropExact.RoundKeepsExact` | src/const_prop_pass.hpp:286-452 | Every visit keeps that an operation is labelled exactly or waits |
| `ConstPropPhis.PhiAsLastSeen` | src/const_prop_pass.hpp:374-405 | When the worklist is empty a phi is labelled with the join of its operands over the edges that were not excluded at its last visit: a constant if they agree on it, unknown if none says anything, bad only if one is bad or two are different constants; edges excluded then still are |
| `ConstPropPhis.PhiConstantExactly` | src/const_prop_pass.hpp:80-99 | When all operands of a phi over edges that are not excluded agree on a constant, the phi is labelled with it if and only if no operand over an edge that was excluded after the last visit of the phi says anything else |
| `ConstPropPhis.PhiWithoutExclusion` | src/const_prop_pass.hpp:374-405 | Without an excluded edge into its block a phi is labelled with the join of all its operands |
| `ConstPropStale.StalePhi` | src/const_prop_pass.hpp:92-99 | That the phi gets the constant may fail: for `x = a; while (false && x < b) x = b; return x` with any two numbers the graph is accepted, in SSA form, and after 15 rounds the worklist is empty with the phi bad, although the edge back is excluded and the only operand that counts is `a` |
| `ConstPropLoopFree.LoopFreePhisExact` | src/const_prop_pass.hpp:374-405 | On a graph without cycles every phi is labelled, when the worklist is empty, with the join of its operands over the edges that are not excluded then |
| `ConstPropLoopFree.LoopFreeMarksExact` | src/const_prop_pass.hpp:80-129 | On a graph without cycles an edge is marked as taken, when the worklist is empty, if and only if its block is the start block or has such an edge into it, and it is a jump or its comparison is not labelled with the opposite constant; all other edges are marked as not taken |
| `ConstPropExact.SubstitutedIsFolded` | src/const_prop_pass.hpp:242-278 | After the walk every node with a constant label is that constant, every edge whose comparison has a constant label is a jump or Bad, the memory behind a folded division is the memory before it, and everything else is unchanged |
| `ConstPropExact.FoldedLeavesNothing` | src/const_prop_pass.hpp:242-278 | In the graph that results no operation on constants has a value and no edge is decided by a constant |
| `FirmGraph.DivisionTruncates` | src/const_prop_pass.hpp:298-304 | The quotient the analysis computes is truncated towards zero: the remainder is smaller than the divisor and has the sign of the dividend |
| `FirmGraph.WrapIsCongruent` | src/const_prop_pass.hpp:286-304 | A result is the one value of its mode that differs from the exact one by a multiple of the number of values of the mode |
| `ConstProp.CmpIsComparison` | src/const_prop_pass.hpp:407-452 | The switch over tarval_cmp decides the relation the comparison stands for |
| `ConstPropSettle.LoopFreeRestsExactly` | src/const_prop_pass.hpp:80-129 | On a graph without cycles, phis and blocks included, in which each condition of such a block has both its projections, the worklist runs empty if and only if no block but the start block holds a jump or a projection without a control node leading to it |
| `ConstPropSettle.LayeredComesToRest` | src/const_prop_pass.hpp:284-452 | The worklist runs empty on every graph, loops included, in which no computed value depends on itself (through operands, through the edges a phi chooses by, or through the comparisons that decide these) and control goes back from every block with a jump or projection to the start block or to a Bad |
| `ConstPropSettle.OrphanNeverRests` | src/const_prop_pass.hpp:80-129 | A block other than the start block with a jump, or with both projections of a condition, that no control node leads to keeps the worklist from ever running empty, in any graph |
| `ConstPropLoop.LoopNeverRests` | src/const_prop_pass.hpp:80-129 | The loop `x = a; do x = x + a while (b < x)` for any constants with `a + a` different from `a` and at most `b`: the graph is accepted, in SSA form, has no edge adrift, and the worklist never runs empty |
| `ConstPropTurns.RecurrenceNeverRests` | src/firm_pass.hpp:90-107 | A run that returns to a state with work left never ends |
| `ConstPropTurns.NextIsLoopNext` | src/const_prop_pass.hpp:284-452 | Round by round, the pass on the loop does what a small machine over seven values and the worklist does |
| `ConstPropRest.RestsExactly` | src/firm_pass.hpp:90-107 | In terms of the run itself: the worklist runs empty if and only if at some point labels and marks stand still while no edge meets the guard under which maybeMarkControlFlow enqueues it again; the conditions on the graph above are reduced to this |
| `ConstPropAdrift.AdriftNeverRests` | src/const_prop_pass.hpp:80-129 | From the initial fill the worklist never runs empty if an edge that no label can decide lies in a region of blocks that is entered only over such edges of its own, or by returns, and does not hold the start block |
| `ConstPropAdrift.DeadJumpNeverRests` | src/const_prop_pass.hpp:80-129 | A concrete graph in SSA form that the pass accepts and on which it does not come to rest |
| `ConstPropPassClass.StartKeeps` | src/const_prop_pass.hpp:160-197 | The initial fill of labels and worklist establishes the invariant, with the jump out of the start block first among the control nodes |
| `FirmPass.TopoCoversGraph` | src/firm_pass.hpp:54-84 | The initial walk hands every node that End can reach to initNode |
| `FirmPass.StartJmpListedFirst` | src/firm_pass.hpp:54-84 | If first predecessors, none of them Bad, lead from the End block to the start block, the walk lists the start block and its jump before anything else |
| `ConstPropPassClass.ConstPropPass.InitTopological` | src/firm_pass.hpp:54-84 | The recursion over visited marks is the topological walk, with labels and worklist set along the way |
| `ConstPropPassClass.ConstPropPass.MaybeMarkControlFlow` | src/const_prop_pass.hpp:80-129 | Marks and worklist afterwards are those of the specification of one marking |
| `ConstPropPassClass.ConstPropPass.SetNodeLink` | src/const_prop_pass.hpp:70-77 | A changed label puts all users on the worklist, an unchanged one nothing |
| `ConstPropPassClass.ConstPropPass.JoinOperands` | src/const_prop_pass.hpp:374-405 | The loop computes the join of the operands whose edges are not excluded |
| `ConstPropPassClass.ConstPropPass.VisitProjX` | src/const_prop_pass.hpp:343-366 | A conditional edge is marked by the label of its comparison |
| `ConstPropPassClass.ConstPropPass.Visit` | src/firm_pass.hpp:184-240 | The dispatch performs the specified visit of the node |
| `ConstPropPassClass.ConstPropPass.BypassMemory` | src/const_prop_pass.hpp:247-257 | The memory projection of a folded division becomes a copy of the memory before it |
| `ConstPropPassClass.ConstPropPass.SubstituteNode` | src/const_prop_pass.hpp:242-278 | One call extends the substituted graph by exactly one node, in whatever order nodes come |
| `ConstPropPassClass.ConstPropPass.Run` | src/firm_pass.hpp:90-107 | With a bound on the rounds it finishes exactly if the worklist runs empty within them, and then leaves a graph with exactly the same runs, in which every constant label has become a constant, every decided edge a jump or Bad, and no operation on constants is left; otherwise the nodes are untouched; by LayeredComesToRest and LoopFreeRestsExactly there is such a bound for the graphs they name |
| `LoweringMethod.MethodPreservesMeaning` | src/firm_visitor.cpp:174-238 | From the method as written to its graph, dead statements erased and returns of the main method resolved: the graph halts with a result and a sequence of events if and only if the method returns that result after those events |
| `LoweringStmts.LoweringPreservesMeaning` | src/firm_visitor.cpp:321-342 | The graph of a method halts with a result and a sequence of events if and only if the source method returns that result after those events, for unbounded loops and in both directions |
| `LoweringCorrect.BranchRuns` | src/firm_visitor.cpp:488-635 | A condition lowered under targets (t, f) reaches t if the expression is true and f if it is false, with the same events in the same order, through any nesting of &&, or, !, comparisons and assignments |
| `LoweringCorrect.ValueRuns` | src/firm_visitor.cpp:488-635 | A lowered expression computes its value with the same events; older temporaries keep theirs |
| `LoweringCorrect.JunctionRuns` | src/firm_visitor.cpp:491-537 | The block of the right operand of && and or is entered only if the left one does not decide |
| `LoweringCorrect.JoinRuns` | src/firm_visitor.cpp:10-19 | The join block turns the edge it was entered through into 0 or 1 |
| `LoweringCorrect.NegationValueRuns` | src/firm_visitor.cpp:682-727 | Where the value of a negation is needed, one block is the target of both outcomes and the edges are exchanged once for every negation: its phi yields the value, with the same events |
| `LoweringEdges.NegationFits` | src/firm_visitor.cpp:682-727 | The phi of a negated value has two operands; its block has as many predecessors if and only if the operand is, further negations aside, no && or or |
| `LoweringStuck.NegatedAndStuck` | src/firm_visitor.cpp:682-727 | A concrete run of the graph emitted for the value of `!(x && y)`, x set and y not: the value is 1, and the graph is stuck at a phi entered over a third edge |
| `LoweringCorrect.TestRuns` | src/firm_visitor.cpp:28-40 | A boolean value becomes control flow: true is "not 0" |
| `LoweringStmts.IfRuns` | src/firm_visitor.cpp:853-890 | If statements with or without either branch |
| `LoweringStmts.LoopRuns` | src/firm_visitor.cpp:892-933 | Loops, for any number of iterations; a source run that exhausts its fuel is matched by at least as many target steps |
| `LoweringStmts.MethodRuns` | src/firm_visitor.cpp:209-238 | Every source run of a method body is matched, with the return that is added when the body can complete |
| `LoweringShape.BranchShape` | src/firm_visitor.cpp:488-635 | Lowering a condition only appends, and gives every block at most one set of exits |
| `FirmVisitorClass.FirmVisitor.VisitExpr` | src/firm_visitor.cpp:446-735 | With a value requested the visitor leaves a node that stands for the expression, with targets requested only control flow |
| `FirmVisitorClass.FirmVisitor.VisitNot` | src/firm_visitor.cpp:682-727 | Negation exchanges the targets; if these are one block with exactly two predecessors it exchanges the predecessors, and where a value is needed it ends in the phi |
| `FirmVisitorClass.FirmVisitor.VisitJunctionOperands` | src/firm_visitor.cpp:509-526 | Both operands of && and or under the right targets |
| `FirmVisitorClass.FirmVisitor.VisitRelation` | src/firm_visitor.cpp:539-634 | Comparisons as condition or joined to a value |
| `FirmVisitorClass.FirmVisitor.VisitBoolLiteral` | src/firm_visitor.cpp:457-473 | A literal condition gives the untaken target a Bad predecessor |
| `FirmVisitorClass.FirmVisitor.VisitVarRef` | src/firm_visitor.cpp:638-680 | Variables are loaded when their value is used |
| `FirmVisitorClass.FirmVisitor.VisitIf` | src/firm_visitor.cpp:853-890 | The block structure of if, a jump only after branches that may continue |
| `FirmVisitorClass.FirmVisitor.VisitWhile` | src/firm_visitor.cpp:892-933 | Pre-header, header, loop and after block with their edges |
| `FirmVisitorClass.FirmVisitor.VisitReturn` | src/firm_visitor.cpp:321-342 | A return node that is a predecessor of the end block; without a value it returns 0 from the main method and nothing from others |
| `FirmVisitorClass.FirmVisitor.VisitMethod` | src/firm_visitor.cpp:174-238 | The body and, if it may continue, the closing return |
| `DefiniteReturn.ReturnsExactly` | src/ast.hpp:140-151 | A statement is marked Return if and only if no path through it, conditions left open, comes out behind it |
| `DefiniteReturn.ReturnsNeverCompletes` | src/semantic_visitor.cpp:493-521 | A statement marked Return never completes normally, in any run and for any number of iterations |
| `DefiniteReturn.ProcessKeepsMeaning` | src/semantic_visitor.cpp:89-107 | Erasing everything after the first returning statement of each block changes no run |
| `DefiniteReturn.ProcessShape` | src/semantic_visitor.cpp:89-107 | Erasure keeps the computed behaviour and leaves no dead statement |
| `CriticalEdges.NoCriticalEdgeLeft` | src/firm_visitor.cpp:76-93 | Among the blocks found and the blocks inserted no edge leads from a block with several successors into one with several predecessors |
| `CriticalEdges.ContractingRestores` | src/firm_visitor.cpp:76-93 | From the new graph and the number of old blocks alone, leaving out the blocks behind that number gives back the old graph |
| `CriticalEdges.CriticalEdgeRemover.Discover` | src/firm_visitor.cpp:46-74 | The search terminates with every block it can reach backwards, each edge counted once |
| `CriticalEdges.CriticalEdgeRemover.CountsDecide` | src/firm_visitor.cpp:61-73 | More than one counted edge means several successors |
| `CriticalEdges.CriticalEdgeRemover.Run` | src/firm_visitor.cpp:42-94 | Exactly the critical edges are led through new blocks of their own and none is left |
| `AsmStack.DeadStoresAreDead` | src/asm_optimizer.cpp:58-105 | Without moves into slots nobody reads, every run visits the same blocks with the same registers, flags, memory and read slots |
| `AsmExact.CleanedExactly` | src/asm_optimizer.cpp:58-105 | Of every block exactly the moves into slots that no instruction of the function reads are gone, the rest is there in order |
| `AsmStack.KeptNothing` | src/asm_optimizer.cpp:82-100 | A block is emptied if and only if it consists of moves into unread slots |
| `AsmStack.AsmStackOptimizer.OptimizeFunction` | src/asm_optimizer.cpp:58-105 | The two loops keep exactly the instructions that are not moves into unread slots |
| `AsmStack.AsmStackOptimizer.CleanBlock` | src/asm_optimizer.cpp:82-100 | Erasing in place while stepping back keeps exactly the live instructions |
| `AsmExact.ElidedExactly` | src/asm_optimizer.cpp:24-49 | Whatever comes before, a last jump to the next block is removed, otherwise a jump before the last one to the next block, otherwise nothing |
| `AsmJump.ElisionKeepsRuns` | src/asm_optimizer.cpp:24-49 | Without redundant jumps every run goes through exactly the same configurations |
| `AsmJump.ElisionNeedsExclusive` | src/asm_optimizer.cpp:34-46 | Removing the first of two jumps is right for every comparison if and only if no comparison takes both |
| `AsmJump.AsmJumpOptimizer.OptimizeFunction` | src/asm_optimizer.cpp:24-49 | Each block but the last loses exactly the jump to its successor |
| `AsmJump.InverseComplements` | src/asm_pass.cpp:53-70 | The inverse relation is taken exactly when the relation is not, and inverting twice is the identity |
| `AsmJump.CondJumpsDecide` | src/asm_pass.cpp:367-404 | The jump pair of a condition always leaves the block, for the block the comparison decides on |
| `AsmJump.CondJumpsPaired` | src/asm_pass.cpp:395-403 | Such pairs meet what jump elision takes for granted |
| `AsmExact.SimpleFirst` | src/asm_optimizer.cpp:113-142 | The first instruction that adds 0, adds or subtracts 1 or clears a register is removed or becomes inc, dec or xor; the instruction behind a removed one stays; then the pass goes on behind it |
| `AsmExact.SimpleNone` | src/asm_optimizer.cpp:113-142 | Without such an instruction nothing changes |
| `AsmExact.ArithFirst` | src/asm_optimizer.cpp:491-533 | The first add and sub of constants on one register is removed if it cancels, the instruction behind it staying as it is, and otherwise becomes one add or sub of the difference |
| `AsmExact.ArithNone` | src/asm_optimizer.cpp:491-533 | Without such a pair nothing changes |
| `AsmExact.PairsFirst` | src/asm_optimizer.cpp:185-214 | The first load into the register just stored to that place is removed, and the pass goes on behind it |
| `AsmExact.PairsNone` | src/asm_optimizer.cpp:185-214 | Without such a load nothing changes |
| `AsmExact.ForwardsAt` | src/asm_optimizer.cpp:217-247 | At each place stands a move between the registers if a load of what was just stored from another register stood there, and what was there otherwise |
| `AsmPeepholePasses.SimpleKeepsRuns` | src/asm_optimizer.cpp:113-142 | Cheaper instructions: every run visits the same blocks and agrees on everything but flags |
| `AsmPeepholePasses.AsmSimpleOptimizer.OptimizeBlock` | src/asm_optimizer.cpp:113-142 | The index loop, which skips the instruction after a removed one, computes the specified list |
| `AsmPeepholePasses.ArithKeepsRuns` | src/asm_optimizer.cpp:491-533 | Merged add and sub in any set of blocks: every run visits the same blocks and agrees on everything but flags |
| `AsmPeepholePasses.AsmArithOptimizer.OptimizeBlock` | src/asm_optimizer.cpp:491-533 | The loop computes the specified list; it fails exactly on an empty flattened list and on one whose only two instructions cancel |
| `AsmPeepholePasses.EmptyExactly` | src/asm_optimizer.cpp:492-512 | Nothing is left of a flattened list if and only if it was empty or consisted of one pair that cancels |
| `AsmPeepholePasses.AsmArithOptimizer.Run` | src/asm_optimizer.cpp:6-13 | The pass over all blocks skips those without instructions of their own, rewrites the others, and fails exactly if one of these is such a list |
| `AsmPeepholePasses.MovKeepsRuns` | src/asm_optimizer.cpp:185-247 | Forwarding a stored register instead of reloading it, in any set of blocks, leaves every run exactly as it was |
| `AsmPeepholePasses.AsmMovOptimizer.RemoveReloads` | src/asm_optimizer.cpp:185-214 | The first loop removes exactly the reloads of the register just stored; it fails exactly on an empty list |
| `AsmPeepholePasses.AsmMovOptimizer.ForwardStores` | src/asm_optimizer.cpp:217-247 | The second loop turns other reloads into register moves; it fails exactly on an empty list |
| `AsmPeepholePasses.AsmMovOptimizer.Run` | src/asm_optimizer.cpp:6-13 | The pass over all blocks skips those without instructions of their own and fails exactly if another one has an empty flattened list |
| `AsmPeepholePasses.DeadMovesFail` | src/compiler.cpp:247-276 | A concrete block with instructions of its own, all of them moves into unread slots and its jump elided: it is emptied, and the next run of the move pass fails on it |
| `Asm.BasicBlock.FlattenInstrs` | src/asm.hpp:360-382 | The flat list is the concatenation of the four lists |
| `AsmPhi.PhisAssignInParallel` | src/asm_pass.cpp:731-780 | After the copies of a predecessor every phi holds the value its operand had before all of them, for chains and cycles of any length |
| `AsmPhi.GeneratedPhisAssign` | src/asm_pass.cpp:529-582 | With the copies generated for all phis of a method, at the end of a predecessor every phi of the next block has the value its operand had before the first copy, provided the path has been through the blocks of the operand phis and no operand converts an earlier phi of the block |
| `AsmPhi.PhisAssignAfterPath` | src/asm_pass.cpp:554-565 | Temporary slots, each written at the start of its own block, are still up to date at the predecessor, over any code that leaves the slots alone |
| `AsmPhi.SavedExactly` | src/asm_pass.cpp:554-565 | Exactly the phis that are operands of phis are saved, each at the start of its own block |
| `AsmPhi.ManagedSlotsApart` | src/asm_pass.hpp:38-111 | Of the slots handed out by the allocator, eight bytes each, no two share a byte, but for a conversion and its operand, which have one slot; this gives the separation the copies need |
| `AsmPhi.ConvertedReadsNew` | src/asm_pass.cpp:731-780 | The converse: a phi whose operand is a conversion of an earlier phi of the block ends with the new value of that phi |
| `AsmPhi.ConvertedDiffers` | src/asm_pass.cpp:731-780 | A concrete pair of phis on slots the allocator hands out, the second of which gets the wrong value |
| `AsmPhi.PhiGenerator.VisitPhis` | src/asm_pass.cpp:529-582 | Visiting all phis of a method appends to every block exactly the specified saves and copies, the decision to save taken from the users |
| `AsmPhi.PhiGenerator.GenerateNormalPhi` | src/asm_pass.cpp:731-780 | The copies appended to the block and to both predecessors are the specified ones |
| `AsmPhi.StackSlotManager.GetStackSlot` | src/asm_pass.hpp:46-59 | A node without a slot gets eight bytes below the frame pointer that overlap no slot handed out before, temporary ones included; a node with one keeps it |
| `AsmPhi.StackSlotManager.CopySlot` | src/asm_pass.hpp:65-80 | The alias shares exactly the slot of its source |
| `AsmPhi.StackSlotManager.SetSlot` | src/asm_pass.hpp:83-91 | Parameters get the given slot |
| `AsmPhi.StackSlotManager.GetTmpSlot` | src/asm_pass.hpp:95-108 | A new temporary slot is eight bytes below the frame pointer that overlap no slot handed out before |
| `LexingExact.LexingIsTheGrammar` | src/lexer.cpp:412-538 | The lexer returns a list of tokens if and only if it is the reading that the lexical grammar allows: gaps of white space and comments in ASCII, at each place the longest word, number or operator with the kind its text has and its line and column, and the end of file last |
| `LexingExact.KindsAreExact` | src/lexer.cpp:418-439 | Every token but the end of file is a keyword exactly if its text is a reserved word, an identifier exactly if it is another word, an integer literal exactly if it is 0 or digits not starting with 0, and an operator exactly if it is one of the operators |
| `LexingExact.CharactersAreListed` | src/lexer.cpp:387-410 | Letters, digits and white space, character by character |
| `LexingExact.OperatorsAreListed` | src/lexer.cpp:551-690 | The operators and separators, one by one |
| `Frontend.DeliveredIsLexed` | src/lexer.hpp:113-190 | The tokens the lexer delivers are such that integer literals consist of digits, which is what the parser relies on |
| `Frontend.TextsAreRead` | src/parser.cpp:326-483 | From a text to a statement: the reading of the text is the one the lexical grammar allows, and on it the statement parser returns exactly what the statement grammar derives |
| `LexerClass.Lexer.NextChar` | src/lexer.cpp:276-360 | The i-th read returns the i-th character of the input; line, column and line-start offsets are those of that position, with CR, LF and CRLF each counted once |
| `LexerClass.Lexer.ReadIntoBuffer` | src/lexer.hpp:340-349 | The buffer shows the next part of the input and a sentinel behind its end |
| `LexerClass.Lexer.Fetch` | src/lexer.hpp:340-353 | Reads are in order and none passes the sentinel |
| `LexerClass.Lexer.EofMeansEnd` | src/lexer.hpp:351-353 | The end-of-file test is true exactly at the end of the input |
| `Lexing.LineStartsAreFirst` | src/lexer.cpp:341-354 | The k-th recorded offset is the first position of line k + 1 |
| `Lexing.LexingConservesInput` | src/lexer.cpp:412-538 | Skipped text and token texts, in order, concatenate to the input |
| `Lexing.LexingSkipsGaps` | src/lexer.cpp:487-527 | Only white space and comments are skipped, and only the last token is the end of file |
| `Lexing.CommentEndsFirst` | src/lexer.cpp:493-512 | A comment ends at the first star-slash after its opener |
| `Lexing.OperatorsAreLongest` | src/lexer.cpp:551-690 | The operator read is the longest one the input continues with (section 3.2 of the Java Language Specification) |
| `Lexing.ScanAdvances` | src/lexer.cpp:412-485 | Every token but the end of file consumes input |
| `Lexing.ScanFailsExactly` | src/lexer.cpp:487-527 | Reading a token fails at a position if and only if, behind white space and comments in ASCII, a comment is broken there before it is closed, or a character there starts nothing |
| `Lexing.StreamIsLexing` | src/lexer.cpp:412-485 | Reading token by token and lexing the whole input agree on every token and on the error |
| `LexerClass.Lexer.SkipCommentsAndWhitespaces` | src/lexer.cpp:487-527 | Stops at the next token, or just behind a slash that opens no comment |
| `LexerClass.Lexer.ReadGT` | src/lexer.cpp:612-635 | Reads the longest operator that starts with > |
| `LexerClass.Lexer.ReadLT` | src/lexer.cpp:595-610 | Reads the longest operator that starts with < |
| `LexerClass.Lexer.ReadDoubled` | src/lexer.cpp:569-593 | Reads the longest operator that starts with +, -, & or or |
| `LexerClass.Lexer.ReadDecNumber` | src/lexer.cpp:540-549 | 0 or the longest run of digits |
| `LexerClass.Lexer.ReadNextToken` | src/lexer.cpp:412-485 | Token, text and position, or the position of the error, are those of scanning the whole input |
| `LexerClass.Lexer.NextToken` | src/lexer.hpp:367-374 | Any mix of lookAhead and nextToken sees one fixed token stream |
| `LexerClass.Lexer.LookAhead` | src/lexer.hpp:376-396 | Looking ahead consumes nothing; it reads one token more than asked for |
| `SymbolTables.SymbolTable.EnterScope` | src/symboltable.cpp:36-39 | Entering pushes an empty map |
| `SymbolTables.SymbolTable.Insert` | src/symboltable.cpp:32-34 | Inserting binds in the top map only, through one record in the log |
| `SymbolTables.SymbolTable.LeaveScope` | src/symboltable.cpp:41-47 | Undoing the log restores exactly the maps below the scope |
| `SymbolTables.SymbolTable.Lookup` | src/symboltable.cpp:49-51 | Lookup is the innermost binding |
| `SymbolTables.SymbolTable.IsDefinedInCurrentScope` | src/symboltable.cpp:53-55 | Inside a scope: membership in the top map; outside all scopes always yes |
| `SymbolTables.InsertUndone` | src/symboltable.hpp:93-108 | A change is undone completely by its record |
| `SymbolTables.LeavingRestores` | src/symboltable.cpp:36-47 | Entering a scope, any operations that leave the scopes they enter, and leaving it restore every symbol, the log and the open scopes |
| `Mangling.MangledNamesAreUnique` | src/ast.hpp:650-663 | Methods have equal mangled names if and only if they are equal or differ only in that one has no parameter where the other has one of type void; none is called main |
| `Mangling.MangledExample` | src/ast.hpp:650-663 | The mangled name of a method with an integer, a nested array and an object as parameters, part by part |
| `Mangling.CheckedNamesAreUnique` | src/ast.hpp:650-663 | Without void parameters equal names mean equal methods |
| `Mangling.TypeSplit` | src/ast.hpp:468-470 | Mangled types decode uniquely, whatever follows |
| `Mangling.BasicSplit` | src/ast.hpp:399-442 | So do mangled basic types and class names |
| `UnusedFunctions.UnusedFnRmPass.Run` | src/unused_fn_remove_pass.hpp:43-75 | What remains are exactly the functions reachable from main by calls, in their original order |
| `UnusedFunctions.UnusedFnRmPass.EnqueueCallees` | src/unused_fn_remove_pass.hpp:57-64 | Every function called is enqueued, builtin ones aside |
| `UnusedFunctions.UnusedFnRmPass.RemoveUnreferenced` | src/unused_fn_remove_pass.hpp:69-75 | Filtering in place keeps order |
| `UnusedFunctions.CalleesAreKept` | src/unused_fn_remove_pass.hpp:51-67 | Every name a kept function calls refers to the same function among what remains, or to none as before |
| `UnusedFunctions.MainIsKept` | src/unused_fn_remove_pass.hpp:43-50 | The name main refers to the same function among what remains |
| `UnusedFunctions.FindsExactly` | src/unused_fn_remove_pass.hpp:29-36 | With distinct names the search by name finds a function if and only if it has that name |
| `UnusedFunctions.ProgramNamesDistinct` | src/ast.hpp:650-663 | The functions of a checked program have distinct names, main included |

## Left out

- Fuzzing, command line, colour output, the dot visitor, the runtime library and linking.
- libfirm's own work: SSA construction, maturing blocks, removal of Bad nodes and unreachable code, verification.
- Source locations on trees, sorting of classes and members, classes and method headers in parser and printer, `System.out` and `System.in`.
- Indentation and line breaks of the printer: the model prints tokens.
- Typing rules decided by a single branch.
- LoweringMethod.MethodPreservesMeaning: says nothing about methods that need the value of a negated `&&` or `||`, for which the phi that is emitted does not fit its block.
- FirmVisitorClass.FirmVisitor.VisitPrimitive: arithmetic, field and array access, calls and stores to fields and arrays are one kind of operation, with operands from left to right.
- ConstPropSettle.LayeredComesToRest: one way only; on graphs with loops whether labels and marks come to stand still depends on the order of the worklist.
- ConstPropPassClass.ConstPropPass.Run: takes a bound on the rounds, since the original need not come to rest; the second topological walk is replaced by the order of the first, the outcome being independent of the order.
- ConstPropPassClass.ConstPropPass.SubstituteNode: exchanged nodes keep their number instead of being new nodes.
- Faults inside a block (division by zero, null access): a run of a graph ends before a block it cannot execute completely.
- AsmMovOptimizer from its third loop on, AsmArrayOptimizer and AsmAliasOptimizer: they rely on unstated liveness of scratch registers.
- Operand widths of instructions.
- AsmPhi.PhiGenerator.VisitPhis: takes phis for which visitPhi comes to generateNormalPhi. `generateSwapPhi` (two phis of a block that refer to each other) and `generateBoolPhi` (both edges from one block) are not modelled; the latter fills no temporary slot, so a phi it generates must not be an operand of another.
- AsmPeepholePasses.SimpleKeepsRuns: agrees on everything but flags, which the replaced instructions do change.
- AsmPeepholePasses.ArithKeepsRuns: agrees on everything but flags, only for constants whose difference fits, and for blocks that do not begin with a conditional jump on flags of another block.
- Keep-alive handling in critical-edge splitting beyond naming the roots of the search.
- Error messages; an error is reported by its position.
