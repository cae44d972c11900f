# Rhai's script front end, verified

This project models the front end of the Rhai scripting engine in Dafny and proves that it keeps the
meaning of scripts: the tokenizer, the parser with the scope it simulates, the optimizer that rewrites
the syntax tree, and two smaller algorithms beside them, the bundling of imported modules and the
JSON printer and parser.

`dafny verify dfyconfig.toml` checks everything.

## Reading order

**The optimizer** (`src/optimizer.rs`). `Ast` and `Eval` define a fragment of the language, the tests
the optimizer relies on (`is_pure`, `is_internally_pure`, `returns_value`, `is_block_dependent`,
constants) and a big-step evaluator with native calls, exceptions, loops and `break` with a value; the
evaluator is bounded in loop rounds only, and `Fuel` shows that the bound does not matter. `Operators` holds
the built-in operators with the laws that fix what they compute, `EvalLaws` what the constructs of the
language do on whole programs. `Simulation`, `Rules`, `Phases` and `Filtering` prove each rewrite;
`NormalForm` says when no rewrite is left, and `NormalMeans` what that means at every place of a script;
`Composition`, `Rewriting` and `Rounds` put them together; `Optimizer` holds the imperative code as the
methods of `OptimizerState`, with its stack of variables and its dirty flag. The optimizer legitimately
drops failing variable reads and failing type checks, so its statement is about *checked* runs, which
stop at such a failure. `Checked` relates them to the interpreter, and `Guarantee.OptimizeTopLevel`
states the result for scripts as the interpreter runs them. Its conditions are collected in
`Conditions.GoodB` and `ValueB`; for each of them `Limits` has a script that does not meet it and that
the optimizer changes:

- a plain assignment to `x` whose right side applies an operator and reads `x` does not assign `x`
  inside that side (it may be of the form `x = x op e`);
- no loop variable or catch variable is named like a constant defined anywhere in the script;
- a `??` list has an operand that cannot fold to `()`: not `()` itself, a constant that may be `()`, or a
  block ending in one;
- the value of a block is kept if every statement is tight, that is, `returns_value` is right about it
  (an empty block, a loop left by `break v` and a `try` are not tight), or if the last statement decides
  the value whatever stands before it: a call, an assignment, a literal, a name, an array, an `if` or
  block ending in such, or a `return` of one, with no `return` elsewhere that has no such value.

A tree that the optimizer reports as unchanged is the tree it was given, up to `while true` written as
`loop`, and no rewrite applies anywhere in it; one it reports as changed is strictly smaller, which is
why its loops end.

**Expressions** (`src/parser.rs`, precedence climbing). `Precedence` is the climbing algorithm as a
function and the grammar it accepts, stated on trees: a tree is valid if every operator binds its
operands as precedence and associativity demand. The algorithm is sound and complete for it, and trees
are unique. `ExprParser` is the recursive parser with its depth limit `d`: never more than three frames
for each level, and no accepted expression is higher than `d * d`. Raising the level once for every
operator of a left-associative chain is why the bound is a square. `Grouping` lists the levels of
operators and what they say about expressions of two operators. `ExprMeaning` evaluates the tree of
operators and the syntax tree, for any host, and shows that they make the same calls in the same order:
flattened conditions, exchanged operands of `in`, negated literals and understood ends of ranges included.

**Scope and closures** (`src/parser.rs`). `Script` is the source language with names, environments of
shared cells and closures; `Lowered` is what the parser emits, with offsets, shared variables and
curried function pointers, and the runtime that runs it on one stack of entries. `Capture` is what a
function captures, `ParserScope` the parser with its stack, frame pointer and captured names.
`LoweringProof.ParseFaithfully` proves that every run of the emitted code is the run of the script,
which is lexical addressing and closure conversion at once. `ScriptLaws` has programs that show what the
reference means: loops, shared variables, new definitions of a name.

**Tokens** (`src/tokenizer.rs`). `CharStream` is the two-slot pushback stream, `RawString` and
`StringLiteral` the two literal scanners with round trips, `Lexing` words and symbols, `Tokens` the
grammar of tokens and of whole runs, `Tokenizer` the imperative tokenizer proved against it (a negated
hexadecimal literal turns out to be always malformed), `Templates` the reading of interpolated strings
with the script in them, and `Compaction` the script compactor with the exact condition under which a
compacted script re-lexes to the same tokens (`Spacing`: and no space is written that could be left
out). What the tokenizer is proved against is pinned from outside: `Numerals` reads written numerals
back, next to ranges and properties of numbers; `Symbols` compares with the tables of symbols, and
covers comments and the signs of numbers; `StringLaws` follows the table of cases in the documentation
of string literals.

**Chains** (`Chains`): index and property chains are rebuilt so that they lean to the right from a head
that is no chain, in source order; `ChainMeaning` evaluates source and chain alike.

**Switch** (`SwitchTable`, `SwitchOptimizer`): hash table, ranges and default against a scan of the
arms in source order, with guards that may have effects and may fail. The rewrite of a `switch` on a
constant (src/optimizer.rs:562-691) runs only on hashable *dynamic* constants: ranges, arrays and,
where the `decimal` feature is on, decimals; integers, booleans, strings and `()` are other syntax
nodes and stay. It does not always keep the meaning of the arms: when several literals equal the
value, guards before the first unguarded one are not asked, and when the only one is guarded, a range
that holds the value (which takes a decimal) is not tried. `SwitchOptimizer.ParseAndFold` goes from the
arms as written to the replacement and gives the exact condition; `GuardedArmSkipped` and
`RangeSkipped` are switches that do not meet it. `SwitchLaws` says which numbers a range holds, by
enumeration, and which arm is run, by the answers of the guards.

**Imports** (`Imports`) and **JSON** (`Json`, sections 4, 5 and 7 of RFC 8259). The printer writes
strings in the debug form of Rust, which escapes more characters than the tokenizer reads back (`\0`
and `\u{..}`), so the round trip holds exactly for maps whose strings avoid them. `JsonGrammar` is the grammar the parser
takes, `JsonReading` shows that its tokens are those of the tokenizer, `JsonFormat` what is written.

## Model

| member | source | states |
|---|---|---|
| `Guarantee.OptimizeTopLevel` | src/optimizer.rs:1446-1488 | the optimized script makes the same calls in the same order, ends in the same scope and with the same outcome as the script, for every host and every run of the interpreter that does not depend on a failing read, failing type check or write to a constant; without `try`, for every run that succeeds; its value is the same if every statement is tight or the last one decides it; at no place of the result, however deep, is anything left that the optimizer folds, merges or removes; it is no larger |
| `Guarantee.MeaningKept` | src/optimizer.rs:1446-1488 | simulation of checked runs lifts to runs of the interpreter from any scope that agrees with the propagated constants |
| `Guarantee.ScriptMatch` | src/eval/stmt.rs:794-878 | a checked run that completes is the run of the interpreter; without `try` every run that succeeds is such a run |
| `NormalMeans.NothingLeftAnywhere` | src/optimizer.rs:159-383 | from part to part of a script in normal form one never comes to a call on literals that has a value, a constant guard, a neutral or deciding operand, a mergeable `if`, an `x = x op e`, an empty or promotable block, a statement after a jump or one without effect before the last |
| `NormalMeans.TidyNotWasteful` | src/optimizer.rs:206-278 | a block that a round leaves alone has no dead code, no literal, name or no-op before its last statement and no empty block |
| `Checked.MatchE` | src/eval/expr.rs:251-420 | checked and interpreter runs of an expression are equal until the first soft failure, and without `try` a soft failure ends the script by an exception |
| `Checked.MatchS` | src/eval/stmt.rs:257-900 | the same for every statement, loops and `try` included |
| `Fuel.OneRun` | src/eval/stmt.rs:26-105 | two complete runs of a block from one state are the same run, whatever bound is put on the rounds of its loops |
| `Fuel.MoreS` | src/eval/stmt.rs:579-671 | a run that does not reach the bound on loop rounds is unchanged by any larger bound |
| `Optimizer.OptimizerState.OptimizeStmtBlock` | src/optimizer.rs:159-383 | the fixpoint loop ends; the block is rewritten with its meaning kept, is strictly smaller whenever the dirty flag is newly raised, is in normal form, and the flag of an enclosing block is never lost |
| `Optimizer.OptimizerState.OptimizeRound` | src/optimizer.rs:203-376 | one round: dead code, each statement, pure statements, tail; a round that leaves the flag clear changes nothing and leaves nothing to rewrite |
| `Optimizer.OptimizerState.OptimizePass` | src/optimizer.rs:220-239 | the pass over the statements keeps their meaning while `variables` grows by what each definition makes known |
| `Optimizer.OptimizerState.OptimizeInBlock` | src/optimizer.rs:222-238 | a definition is optimized and pushed with its value if it is a constant literal; any other statement leaves the stack alone |
| `Optimizer.OptimizerState.RemoveDeadCode` | src/optimizer.rs:206-218 | exactly the statements up to and including the first control-flow break remain; dirty if and only if something went |
| `Optimizer.OptimizerState.FlattenBlocks` | src/optimizer.rs:179-200 | nested blocks that define nothing are spliced in, at every depth; each splice lowers the weight |
| `Optimizer.OptimizerState.RemovePure` | src/optimizer.rs:241-278 | the in-place loop leaves exactly the survivors of the declarative filter |
| `Optimizer.OptimizerState.TrimTail` | src/optimizer.rs:280-365 | both tail loops end, with exactly the tail on which no rule applies |
| `Optimizer.OptimizerState.OptimizeStmt` | src/optimizer.rs:405-918 | every rewrite of a statement keeps its calls, scope, exceptions and, where promised, its value; a clean statement is unchanged and has no rewrite left |
| `Optimizer.OptimizerState.OptimizeIf` | src/optimizer.rs:447-548 | the six forms of `if` keep their meaning: empty, constant guard with and without `else`, nested, general |
| `Optimizer.OptimizerState.OptimizeNestedIf` | src/optimizer.rs:507-534 | `if a { if b { .. } }` becomes `if a && b { .. }`, extending a guard that is already a conjunction |
| `Optimizer.OptimizerState.OptimizeLoop` | src/optimizer.rs:775-806 | `while false` goes, `while true` becomes a plain loop, other loops have guard and body optimized |
| `Optimizer.OptimizerState.OptimizeTry` | src/optimizer.rs:830-848 | a pure `try` body loses its handler, otherwise both parts are optimized |
| `Optimizer.OptimizerState.OptimizeBlock` | src/optimizer.rs:815-828 | an emptied block becomes a no-op, a single statement that is not block dependent is promoted |
| `Optimizer.OptimizerState.OptimizeExprStmt` | src/optimizer.rs:851-873 | an expression statement made of a block becomes the block, one made of a call becomes a call statement |
| `Optimizer.OptimizerState.OptimizeCallStmt` | src/optimizer.rs:875-886 | a call statement that folds to a constant becomes an expression statement |
| `Optimizer.OptimizerState.OptimizeAssign` | src/optimizer.rs:418-444 | `x = x op e` becomes `x op= e`, with the same meaning if `e` does not assign `x`; any other assignment has its right side optimized |
| `Symbols.OpAssignments` | src/tokenizer.rs:879-896 | the operators with an assignment are exactly those that compute and are a symbol together with `=` |
| `Optimizer.OptimizerState.OptimizeJump` | src/optimizer.rs:888-892 | the value of `break`, `return` and `throw` is optimized in place |
| `Optimizer.OptimizerState.OptimizeExpr` | src/optimizer.rs:940-1400 | every rewrite of an expression keeps value, calls, scope and exceptions |
| `Optimizer.OptimizerState.OptimizeBlockExpr` | src/optimizer.rs:953-971 | a block expression folds to `()`, to its only expression, or keeps its value through block optimization, also with a `try` or an empty block before the statement that decides the value |
| `Optimizer.OptimizerState.OptimizeLogical` | src/optimizer.rs:1153-1224 | in-place folding of conjunction and disjunction lists of any length: the short-circuit value and the evaluated operands, in order, are kept |
| `Optimizer.OptimizerState.OptimizeCoalesce` | src/optimizer.rs:1225-1251 | in-place folding of `??` lists keeps the value and the operands evaluated if some operand cannot fold to `()` |
| `Optimizer.OptimizerState.OptimizeCall` | src/optimizer.rs:1253-1393 | `!` of a literal boolean becomes its negation; a call on two literals becomes the value of the operator exactly if that has one, by the laws of `Operators`, and stays a call otherwise |
| `Optimizer.OptimizerState.OptimizeArgs` | src/optimizer.rs:1383-1393 | arguments are optimized in order |
| `Rules.AllRemove` | src/optimizer.rs:1158-1161 | removing a neutral literal anywhere in a conjunction or disjunction keeps value and effects |
| `Rules.AllTruncate` | src/optimizer.rs:1162-1173 | nothing after a deciding literal is evaluated, so cutting there keeps value and effects |
| `Rules.AllDecided` | src/optimizer.rs:1162-1167 | pure operands before a deciding literal may go with it |
| `Rules.AllSmall` | src/optimizer.rs:1177-1187 | an emptied or single-operand list is its neutral value or that operand |
| `Rules.FirstRemove` | src/optimizer.rs:1230-1232 | dropping a `()` literal from `??` keeps value and effects |
| `Rules.FirstTruncate` | src/optimizer.rs:1233-1239 | nothing after a constant that is not `()` is evaluated by `??` |
| `Rules.PropagateSim` | src/optimizer.rs:1391-1399 | replacing a constant by its value keeps the meaning in every scope the stack agrees with |
| `Rules.FoldBinarySim` | src/optimizer.rs:1310-1345 | evaluating a built-in operator at compile time gives what the evaluator would, the operators being those of the laws in `Operators` |
| `Operators.SumLaws` | src/packages/arithmetic.rs:28-34 | a + 0 is a, and a sum with one more on the right is one more, or an error exactly if it leaves 64 bits |
| `Operators.DifferenceLaw` | src/packages/arithmetic.rs:36-42 | a - b is c exactly if c has 64 bits and c + b is a |
| `Operators.ProductLaws` | src/packages/arithmetic.rs:44-50 | a * 0 is 0, and a * (b + 1) is a * b + a, or an error exactly if it leaves 64 bits |
| `Operators.DivisionLaws` | src/packages/arithmetic.rs:52-71 | a / b and a % b are the q and r with a = b * q + r, |r| < |b| and r zero or of the sign of a; an error exactly if b is 0 or the quotient leaves 64 bits |
| `Operators.DividesOnce` | src/packages/arithmetic.rs:52-71 | there is only one such q and r |
| `Operators.PowerLaws` | src/packages/arithmetic.rs:73-85 | a ** 0 is 1, a ** (n + 1) is a ** n times a; negative and too large exponents are errors |
| `Operators.OrderLaws` | src/func/builtin.rs:318-324 | of two integers, booleans or strings exactly one is less, equal or greater; the other comparisons are the negations |
| `Operators.OrderTrans` | src/func/builtin.rs:318-324 | the order is transitive |
| `Operators.OrderSteps` | src/func/builtin.rs:318-324 | n is less than n + 1, false than true, and strings are ordered by their first difference |
| `Operators.MixedLaws` | src/func/builtin.rs:668-683 | values of different types are unequal, and in no order |
| `Operators.LogicLaws` | src/func/builtin.rs:333-345 | `&`, `|` and `^` on booleans by their truth tables |
| `Operators.OnlyBuiltin` | src/func/builtin.rs:285-380 | every other operator is left to the functions of the host |
| `Operators.JoinLaws` | src/func/builtin.rs:348-362 | the sum of two strings is the first one followed by the second |
| `Rules.OpAssignSim` | src/optimizer.rs:418-436 | the op-assignment rewrite is right for every operator when the operand does not assign the variable |
| `Rules.NestedIfSim` | src/optimizer.rs:507-534 | merging nested guards keeps calls, failures and value |
| `Rules.IfConstSim` | src/optimizer.rs:482-505 | an `if` on a constant is the block it takes |
| `Rules.TryPureSim` | src/optimizer.rs:830-840 | a pure `try` body never throws |
| `Rules.FrameE` | src/eval/expr.rs:251-420 | an expression that does not assign a name leaves every visible variable of that name as it is |
| `Phases.FlattenSim` | src/optimizer.rs:179-200 | flattening keeps calls and scope, and the value of blocks that are tight or whose last statement decides it |
| `Phases.FlattenHolds` | src/optimizer.rs:179-200 | a last statement that decides the value still does when inner blocks are spliced in |
| `Phases.TrimHolds` | src/optimizer.rs:280-333 | a last statement that decides the value is left by every tail rule but the one that replaces a `return` by its value, and then the value decides |
| `Phases.LiveSim` | src/optimizer.rs:206-218 | removing dead code keeps meaning and value |
| `Phases.SurvivorsSim` | src/optimizer.rs:241-278 | removing pure statements and bare reads keeps meaning for every checked run |
| `Phases.SurvivorFlag` | src/optimizer.rs:241-278 | which statement goes: one that is pure, a bare variable read, or (internally) pure past the last statement that is not, and never the result statement |
| `Phases.TrimSim` | src/optimizer.rs:280-365 | every rule on the tail of a block keeps meaning, `return` elimination included |
| `Filtering.RemoveInPlace` | src/optimizer.rs:241-278 | the loop with shifting indices and `last_non_pure` computes an order-preserving filter against the original block |
| `EvalFacts.PureE` | src/ast/expr.rs:755-785 | what `is_pure` promises: a normal end, no effect, and a value that does not depend on the state |
| `EvalFacts.PureS` | src/ast/stmt.rs:836-900 | the same for statements |
| `EvalFacts.InternallyPureS` | src/ast/stmt.rs:930-950 | internally pure statements end normally and only add to the scope |
| `EvalLaws.ForCalls` | src/eval/stmt.rs:671-779 | a `for` loop calls its body once for every item, in order, with a counter from 0 and the item |
| `EvalLaws.SeqAppend` | src/eval/stmt.rs:26-105 | two lists of statements run one after the other |
| `EvalLaws.LetScope` | src/eval/stmt.rs:385-481 | a definition is seen by what follows it in its block and by nothing after it; an inner one hides it, an assignment in a block changes it, a constant cannot be assigned |
| `EvalLaws.CatchSees` | src/eval/stmt.rs:794-878 | `throw` skips the rest of its block and the handler sees the value thrown |
| `EvalLaws.CatchRethrows` | src/eval/stmt.rs:794-878 | an empty `throw` in the handler throws the same value again |
| `EvalLaws.NothingCaught` | src/eval/stmt.rs:794-878 | without an exception the handler does not run |
| `EvalLaws.BreakValue` | src/eval/stmt.rs:579-779 | `break v` gives every kind of loop the value v |
| `EvalLaws.ContinueSkipsGuard` | src/eval/stmt.rs:638-670 | `continue` in a `do` loop goes on without looking at the guard |
| `EvalLaws.LeavesExactly` | src/ast/stmt.rs:955-962 | among statements with constant expressions, those classified as breaking the control flow are exactly those that no run leaves normally |
| `Conditions.ValuelessIsUnit` | src/ast/stmt.rs:770-830 | a tight statement for which `returns_value` is false has the value `()` |
| `Composition.GuardsSim` | src/optimizer.rs:524-534 | the guard list of a merged `if` stands for the conjunction of both guards |
| `Rounds.RoundIs` | src/optimizer.rs:203-376 | dead-code removal, pass, filter and tail compose to one meaning-keeping, weight-lowering round |
| `Rounds.BlockNext` | src/optimizer.rs:371-377 | a dirty round is strictly smaller, so the loop makes progress |
| `Rounds.BlockFinish` | src/optimizer.rs:371-380 | a clean round ends the loop in normal form, with the flag as the enclosing block left it or raised |
| `Simulation.WhileCongruence` | src/eval/stmt.rs:606-636 | meaning is kept when guard and body of a loop are |
| `Simulation.TryCongruence` | src/eval/stmt.rs:794-878 | meaning is kept when the parts of `try` are |
| `Limits.CoalesceFold` | src/optimizer.rs:1244-1246 | folding a `??` of literals keeps its meaning if and only if one of them is not `()` |
| `Limits.SelfAssignment` | src/optimizer.rs:418-436 | a script on which the op-assignment rewrite changes the result: the operand assigns the variable |
| `Limits.ShadowingBinder` | src/optimizer.rs:801-805 | a script where a loop variable named like a propagated constant is replaced by the constant |
| `Limits.DroppedFailure` | src/optimizer.rs:259-268 | a script where a failing read inside `try` is dropped and its handler no longer runs |
| `Limits.EmptyBlockAtEnd` | src/optimizer.rs:179-200 | a block whose value changes when an empty last block is flattened away |
| `Limits.BreakWithValue` | src/optimizer.rs:306-314 | a block whose value changes because a loop left by `break v` counts as returning none |
| `Limits.BareReturn` | src/optimizer.rs:306-314 | a script whose last statement decides the value as written, but whose bare `return` is last once dead code is gone and is dropped after a `try` |
| `Limits.TryValue` | src/optimizer.rs:830-848 | a `try` whose value is lost because its body is optimized as if the value were unused |
| `Precedence.UniformAssociativity` | src/tokenizer.rs:1032-1075 | operators of one precedence level all bind the same way |
| `Precedence.OperandSound` | src/parser.rs:1861-1960 | an operand reads as exactly the tokens consumed for it |
| `Precedence.ClimbSound` | src/parser.rs:2227-2438 | climbing yields a valid tree whose reading is the tokens consumed and stops at the first token that does not continue it |
| `Precedence.ExpressionSound` | src/parser.rs:2711-2718 | an accepted expression is a valid tree, and no operator follows it |
| `Precedence.ClimbComplete` | src/parser.rs:2227-2438 | climbing from the first operand of any valid tree arrives at that tree |
| `Precedence.ExpressionComplete` | src/parser.rs:2711-2718 | the reading of every valid tree is parsed to that tree, whatever follows |
| `Precedence.UniqueTree` | src/parser.rs:2227-2438 | one token sequence is the reading of at most one valid tree |
| `Precedence.Accepts` | src/parser.rs:2227-2438 | the parser accepts exactly the readings of valid trees, and returns the tree |
| `Grouping.SomeLevel` | src/tokenizer.rs:1032-1061 | every operator is on one of eleven levels |
| `Grouping.Grouping` | src/tokenizer.rs:1032-1075 | of two operators between three operands the one of the tighter level takes the middle one; on one level the left one does, but for powers the right one |
| `Grouping.SignGroups` | src/parser.rs:1861-1960 | a sign belongs to the operand next to it, parentheses make one operand |
| `Grouping.OpenRanges` | src/parser.rs:2267-2318 | a range may lack its end before a closing token or a separator and only there; without a start it begins at 0 |
| `ExprParser.PrintParse` | src/parser.rs:2227-2438 | parsing the parenthesised print of any expression without open-ended ranges gives its syntax tree back |
| `ExprParser.ParenthesesNeeded` | src/parser.rs:2227-2438 | the print spends no parentheses if and only if the tree is valid without any |
| `ExprParser.ChainFlattened` | src/parser.rs:2340-2397 | a chain of conjunctions, of disjunctions or of `??` becomes one flat list of its operands in order |
| `ExprMeaning.AstMeans` | src/parser.rs:2334-2438 | for every host, evaluating the syntax tree makes the same calls with the same arguments in the same order as evaluating the tree of operators: left operand first, the container of `in` first, conditions up to the one that decides, negated literals as one number |
| `ExprMeaning.BinMeans` | src/parser.rs:2334-2438 | the same for a node of an operator |
| `ExprMeaning.NumberMeans` | src/parser.rs:1880-1915 | a literal with its signs is one number, with the right sign |
| `ExprMeaning.NameDenotes` | src/parser.rs:2320-2336 | every operator is called by its own name |
| `ExprMeaning.RejectedExactly` | src/parser.rs:2340-2397 | a tree has no node exactly if a number, a string or `()` is an operand of `&&` or `||` |
| `ExprMeaning.ExpressionMeans` | src/parser.rs:2711-2718 | an accepted expression means what its tokens mean |
| `ExprParser.NegationFits` | src/parser.rs:1880-1915 | negating an integer literal never overflows |
| `ExprParser.Parser.LevelUp` | src/parser.rs:261-271 | one more level is allowed exactly up to the depth limit |
| `ExprParser.Parser.ParseExpr` | src/parser.rs:2711-2718 | the recursive parser computes the grammar within the depth limit; at most three frames per level are active |
| `ExprParser.Parser.ParseUnary` | src/parser.rs:1861-1960 | a unary operand under the depth limit |
| `ExprParser.Parser.ParsePrimary` | src/parser.rs:1312-1420 | a primary operand under the depth limit |
| `ExprParser.Parser.ParseBinaryOp` | src/parser.rs:2227-2438 | the climbing loop builds the tree of the grammar, raising the level once per operator of a left chain |
| `ExprParser.Parser.ParseRight` | src/parser.rs:2267-2318 | the right-hand side of an operator, missing ends of ranges included |
| `ExprParser.HeightBound` | src/parser.rs:261-271 | the height of a tree is bounded by its remaining levels, its operators by the levels not yet used |
| `ExprParser.ExpressionHeight` | src/parser.rs:261-271 | an expression accepted with depth limit d has height at most d squared |
| `ExprParser.TreeHeight` | src/parser.rs:2340-2397 | flattening and folding never make a tree higher |
| `ExprParser.Parse` | src/parser.rs:2711-2718 | accepted if and only if the tokens are the reading of a valid tree within the depth limit; the tree returned is at most d squared high, and by ExprMeaning.ExpressionMeans means what the tokens mean; it is rejected for a misfit of operands exactly by ExprMeaning.RejectedExactly |
| `Capture.CapturedExact` | src/parser.rs:552-560 | the captured list holds every free variable of the function once, no parameter, and nothing else |
| `Capture.FirstUseOrder` | src/parser.rs:552-560 | captured names stand in the order of their first use |
| `Capture.UsesFreeE` | src/parser.rs:539-565 | the names a parse looks up and does not find are the free variables of the expression |
| `ParserScope.ParseState.FindVar` | src/parser.rs:158-176 | the offset found is that of the innermost variable of the name, counted from the top |
| `ParserScope.ParseState.AccessVar` | src/parser.rs:539-565 | a name not on the stack is captured once, unless capturing is off for this one access |
| `ParserScope.ParseState.AccessAll` | src/parser.rs:3860-3935 | captured names of an inner function are looked up in, and captured by, the enclosing one |
| `ParserScope.ParseState.ParseAnonFn` | src/parser.rs:3779-3964 | a function is parsed with a scope of its parameters only, its captures become leading parameters, shared cells and curried arguments |
| `ParserScope.ParseState.ParseLet` | src/parser.rs:2912-3000 | a definition is pushed, or reuses the slot of the same name in the same block, after its initializer is parsed |
| `ParserScope.ParseState.ParseFor` | src/parser.rs:2822-2910 | counter and loop variable are pushed for the body and popped again |
| `ParserScope.ParseState.ParseTryCatch` | src/parser.rs:3500-3568 | the catch variable is pushed for the handler and popped again |
| `ParserScope.ParseState.ParseBlock` | src/parser.rs:3097-3210 | a block leaves the simulated scope as it found it |
| `ParserScope.ParseState.ParseStmts` | src/parser.rs:3141-3203 | within a block the stack only grows above its frame pointer |
| `ParserScope.ParseState.ParseStmt` | src/parser.rs:3242-3490 | each statement is lowered against the stack at that point and extends it by what it defines |
| `ParserScope.ParseState.ParseExpr` | src/parser.rs:2711-2718 | expressions leave the stack alone and capture exactly their unbound names |
| `ParserScope.ParseScript` | src/parser.rs:4015-4075 | a whole script is lowered against the empty stack |
| `Lowering.LocateIs` | src/eval/expr.rs:48-110 | an offset from the parser reaches, in every aligned runtime scope, the innermost visible variable of that name |
| `Lowering.RedefineRel` | src/eval/stmt.rs:385-481 | defining a name again in its slot makes a new variable, and closures that captured the old one keep it |
| `Lowering.ShareRel` | src/eval/stmt.rs:983-1025 | turning a variable into a shared cell changes no value |
| `Lowering.WriteRel` | src/eval/stmt.rs:297-383 | an assignment through an offset writes the cell the name means |
| `LoweringProof.RunE` | src/eval/expr.rs:251-420 | evaluating lowered code follows the reference evaluation of the expression, step for step |
| `LoweringProof.RunCall` | src/func/script.rs:22-190 | calling the curried, lifted function is evaluating the body in the defining environment of shared cells |
| `LoweringProof.CurryBoth` | src/parser.rs:3710-3775 | the curried arguments are the cells of the captured variables |
| `LoweringProof.CallReady` | src/func/script.rs:60-130 | captured cells and arguments, pushed as parameters, form the scope the body was parsed against |
| `LoweringProof.RunSeq` | src/eval/stmt.rs:26-105 | the statements of a block, including definitions that reuse a slot |
| `LoweringProof.RunLet` | src/eval/stmt.rs:385-481 | `let` and `const`, new or again in the same block |
| `LoweringProof.RunFor` | src/eval/stmt.rs:671-779 | `for` with and without a counter |
| `LoweringProof.RunWhile` | src/eval/stmt.rs:579-636 | `while` and `loop` |
| `LoweringProof.RunTry` | src/eval/stmt.rs:794-878 | `try`/`catch` with the catch variable in scope of the handler only |
| `LoweringProof.RunS` | src/eval/stmt.rs:257-900 | every statement that defines nothing |
| `LoweringProof.ScriptRun` | src/parser.rs:66-69 | lexical addressing is right: in every run, from any host scope, the parsed script does what the script means with names and environments |
| `LoweringProof.ParseFaithfully` | src/parser.rs:4015-4075 | for every script the parser terminates with code of the same meaning |
| `ScriptLaws.ForFolds` | src/eval/stmt.rs:671-779 | `for x in n { s = f(s, x) }` folds f over 0 to n - 1, with the loop variable and with the counter |
| `ScriptLaws.ClosureShares` | src/parser.rs:3710-3775 | a closure shares its variables: it sees what is assigned to them after it was made |
| `ScriptLaws.ClosureKeeps` | src/eval/stmt.rs:385-481 | a new definition of a name is another variable: the closure keeps the one it was made with |
| `CharStream.MultiInputsStream.Unget` | src/tokenizer.rs:2609-2615 | pushback is a stack of at most two characters over the concatenated inputs |
| `CharStream.MultiInputsStream.GetNext` | src/tokenizer.rs:2616-2641 | reading takes the first character of what is left, across inputs |
| `CharStream.MultiInputsStream.PeekNext` | src/tokenizer.rs:2642-2662 | peeking is the next character and changes nothing |
| `Tokenizer.TokenIterator.NextToken` | src/tokenizer.rs:1715-2427 | one token as the grammar of tokens has it, text and rest of the input, at a fresh position or inside an open text; never more than two characters are pushed back |
| `Tokenizer.TokenIterator.Advance` | src/tokenizer.rs:1700-1713 | the same over state kept between tokens: a minus sign is no sign of a number after a token that is an operand |
| `Tokenizer.TokenIterator.Run` | src/tokenizer.rs:2682-2820 | a whole run, through strings, raw strings, interpolations and back into their text, gives exactly the tokens of the grammar up to the end or the first error, and ends; the pushback buffer never overflows |
| `Tokenizer.TokenIterator.Step` | src/tokenizer.rs:2682-2745 | a request of the parser switches to back-tick text; a text still open at the end of the input is an error |
| `Tokens.PlainTokens` | src/tokenizer.rs:2682-2820 | a script without literals gives the words and symbols of its text |
| `Tokens.TokenProper` | src/tokenizer.rs:1715-2427 | every token but the last takes a character |
| `Tokenizer.TokenIterator.Number` | src/tokenizer.rs:1784-1945 | the loop over the characters of a number reads digits, one fraction, one exponent or a radix and its digits, and is malformed where parsing the text fails |
| `Tokens.NegatedRadix` | src/tokenizer.rs:1891-1911 | a negated hexadecimal, octal or binary literal such as `-0x1f` is always malformed, because the sign is in front when two characters are cut off |
| `Numerals.NumeralRead` | src/tokenizer.rs:1784-1945 | a numeral of digits with separators, a fraction and an exponent is read back as its digits, and nothing that follows is taken |
| `Numerals.TakenExactly` | src/tokenizer.rs:1799-1808 | exactly the digits of the radix are taken, separators among them dropped |
| `Numerals.TrailingPeriod` | src/tokenizer.rs:1823-1830 | a period before what is no digit, no period and no name is part of the number |
| `Numerals.RadixRead` | src/tokenizer.rs:1866-1911 | a hexadecimal, octal or binary numeral is its digits, malformed if it has none or takes more than 64 bits |
| `Numerals.FitsExactly` | src/tokenizer.rs:1904-1911 | 64 bits are exactly 16 hexadecimal, 64 binary, or 21 octal digits and a leading 1 |
| `Numerals.LeadingZero` | src/tokenizer.rs:1904-1911 | leading zeros do not change the value of a numeral |
| `Numerals.RangeTokens` | src/tokenizer.rs:1816-1821 | `a..b` and `a..=b` are a number, the symbol and a number, the sign of the second included |
| `Numerals.MethodTokens` | src/tokenizer.rs:1831-1835 | `a.name` is a number, a period and the name |
| `Numerals.FractionToken` | src/tokenizer.rs:1806-1811 | `a.b` is one number |
| `Symbols.SignTaken` | src/tokenizer.rs:956-1028 | a minus sign before digits is the sign of the number after an operator, an opening token, a separator or a keyword, and an operator after a name, a literal or a closing token |
| `Tokenizer.TokenIterator.Hash` | src/tokenizer.rs:2057-2074 | a hash that starts no map and no raw string |
| `Templates.InterpolatedRead` | src/parser.rs:1424-1489 | an interpolated string, its blocks written by the compactor, gives its texts with the tokens of the blocks between them and then the tokens of what follows, for every list of blocks, if the parser resumes the text after each block |
| `Templates.TemplateRead` | src/tokenizer.rs:2682-2745 | the same from a text that is resumed |
| `Templates.BlockRead` | src/tokenizer.rs:1715-2427 | the tokens of a block are read back up to its closing brace, whatever text follows |
| `Tokenizer.TokenIterator.BangOrNotIn` | src/tokenizer.rs:2319-2339 | `!in` is read only as a whole word; otherwise both characters are given back |
| `Tokenizer.TokenIterator.Period` | src/tokenizer.rs:1801-1835 | a period belongs to a number exactly if a digit or something that can start no property name, and is no second period, follows; otherwise it is given back |
| `Tokenizer.TokenIterator.Exponent` | src/tokenizer.rs:1837-1863 | an `e` belongs to a number exactly if a digit or a sign follows; otherwise it is given back |
| `Tokenizer.TokenIterator.Symbol` | src/tokenizer.rs:2026-2427 | the longest symbol of the table |
| `Symbols.LongestSymbol` | src/tokenizer.rs:346-531 | the text taken is the longest one that the tables of keywords and reserved symbols list, `!in` as a whole word only |
| `Symbols.Spaces` | src/tokenizer.rs:2420-2440 | white space is the space, the tab, CR, LF and the form feed |
| `Symbols.Alphabet` | src/tokenizer.rs:2525-2550 | the characters of words are the letters, the underscore and, not first, the digits |
| `Tokenizer.TokenIterator.Word` | src/tokenizer.rs:2450-2493 | the longest identifier |
| `Tokenizer.TokenIterator.SkipComment` | src/tokenizer.rs:2124-2207 | a comment is skipped to its end |
| `Tokenizer.TokenIterator.SkipBlock` | src/tokenizer.rs:1615-1660 | nested block comments are skipped to the matching end |
| `Symbols.BlockComment` | src/tokenizer.rs:1600-1660 | a block comment with comments nested in it to any depth is as good as nothing |
| `Symbols.LineComment` | src/tokenizer.rs:2124-2170 | so is a line comment with the end of its line |
| `Tokenizer.TokenIterator.RawLiteral` | src/tokenizer.rs:1991-1996 | the token is the raw string the search for its terminator finds |
| `Tokenizer.TokenIterator.Literal` | src/tokenizer.rs:1948-2028 | the token is what the grammar of string and character literals reads, interrupted at `${` |
| `Tokenizer.TokenIterator.ContinueText` | src/tokenizer.rs:1746-1769 | the text of a literal is taken up again where it was interrupted |
| `RawString.ScanRaw` | src/tokenizer.rs:1287-1340 | the scanner returns the text before the first quote followed by n hashes, or everything if there is none |
| `RawString.Search` | src/tokenizer.rs:1287-1340 | the first occurrence of the terminator |
| `RawString.RoundTrip` | src/tokenizer.rs:1287-1340 | any text without the terminator is read back, for every number of hashes |
| `RawString.ParseRawLiteral` | src/tokenizer.rs:1252-1340 | the opening hashes are counted and the body read against exactly that many |
| `RawString.LiteralRoundTrip` | src/tokenizer.rs:1252-1340 | a raw literal written around a text that does not imitate its end reads back as the text |
| `StringLiteral.ScanString` | src/tokenizer.rs:1378-1612 | the scanning loop computes the declarative reading of a literal: escapes, doubled quotes, continuation, CR LF |
| `StringLiteral.TakeChar` | src/tokenizer.rs:1434-1600 | what one character does to text, escape state and column |
| `StringLiteral.ScanHex` | src/tokenizer.rs:1510-1544 | the digits of `\x`, `\u` and `\U` are accumulated exactly, or the literal is malformed |
| `StringLiteral.HexFits` | src/tokenizer.rs:1510-1544 | the hexadecimal accumulator never exceeds 32 bits |
| `StringLiteral.QuotedRoundTrip` | src/tokenizer.rs:1378-1612 | a text is read back however each of its characters is spelled |
| `StringLiteral.TickedScan` | src/tokenizer.rs:1378-1612 | a text between back-ticks, with doubled ticks and escaped `${`, is read with CR dropped before LF |
| `StringLiteral.TickRoundTrip` | src/tokenizer.rs:1958-1988 | a text is read back from between back-ticks if and only if it has no CR before an LF; one that starts with LF is written with one more |
| `StringLiteral.DropCrIff` | src/tokenizer.rs:1483-1484 | dropping CR before LF changes exactly the texts that contain the pair |
| `StringLaws.QuotedRows` | src/tokenizer.rs:1352-1376 | "hello" is its text, unterminated at the end of the line or the input, open after a backslash at the end of the input |
| `StringLaws.TickRows` | src/tokenizer.rs:1352-1376 | a text between back-ticks goes on over ends of lines and of the input and is interrupted by `${` |
| `StringLaws.ContinuedText` | src/tokenizer.rs:1553-1600 | after a backslash at the end of a line the text goes on in the next, white space up to the column of the opening quote dropped |
| `StringLaws.HexEscape` | src/tokenizer.rs:1508-1544 | `\x` takes two digits, `\u` four, `\U` eight: the character of that code, or malformed |
| `StringLaws.ScalarExactly` | src/tokenizer.rs:1538-1544 | the codes that are no characters are exactly the surrogates and those beyond 0x10FFFF |
| `StringLaws.HexPlaces` | src/tokenizer.rs:1524-1537 | each digit adds its value to sixteen times what stands before it |
| `StringLaws.UnknownEscape` | src/tokenizer.rs:1577-1583 | a backslash before any other character is an error |
| `StringLaws.CharacterRead` | src/tokenizer.rs:1999-2022 | one character between single quotes is that character, none or several are an error |
| `Compaction.Compact` | src/tokenizer.rs:2821-2881 | the compactor writes the tokens with a space exactly where the two-character tables ask for one |
| `Compaction.TablesAgree` | src/tokenizer.rs:2821-2881 | a pair of characters is in the tables of the compactor if and only if it begins a longer symbol |
| `Compaction.ThreeApart` | src/tokenizer.rs:2821-2881 | the two-character test is enough for three-character symbols, but for `::` before `<` and `..` before `=` |
| `Compaction.Relex` | src/tokenizer.rs:2821-2881 | a script without clashing neighbours re-lexes to the same tokens |
| `Compaction.RelexIff` | src/tokenizer.rs:2821-2881 | a compacted script re-lexes to the same tokens if and only if no two neighbours clash |
| `Spacing.SpaceNeeded` | src/tokenizer.rs:2851-2870 | a space is written only between characters that would be read together |
| `Spacing.SpaceExactly` | src/tokenizer.rs:2851-2870 | of tokens of one character exactly those that would be read together get a space, but for the two that begin a comment |
| `Compaction.LexInk` | src/tokenizer.rs:1715-2427 | lexing never invents characters: tokens take no more than the text holds |
| `Tokenizer.PlainJoin` | src/tokenizer.rs:2821-2881 | what the compactor writes contains no literal and no number |
| `Tokenizer.CompactAndReread` | src/tokenizer.rs:2682-2881 | compacting and tokenizing again gives the tokens back |
| `Chains.ParsePrimary` | src/parser.rs:1312-1648 | a primary expression and all that follows it is the chain of the source |
| `Chains.ParsePostfix` | src/parser.rs:1649-1860 | each postfix appends to the chain, parenthesised chains included |
| `Chains.ParseIndexChain` | src/parser.rs:773-914 | a run of brackets nests to the right and is taken whole |
| `Chains.MakeDotMade` | src/parser.rs:2073-2224 | `make_dot_expr` appends a property and all that follows it |
| `Chains.AttachMade` | src/parser.rs:452-521 | attaching an outer chain at the tail of an inner one appends its accesses |
| `Chains.ChainOnChain` | src/parser.rs:452-521 | the head of a chain is a chain exactly when a chain was put on a chain |
| `Chains.OptimizeComboChain` | src/parser.rs:452-521 | walking to the tail and rebuilding is attaching there |
| `Chains.ParseChain` | src/parser.rs:1649-1860 | a parsed chain starts at what is no chain and lists the accesses of the source in order, bracketed chains staying one operand |
| `ChainMeaning.ChainMeans` | src/eval/chaining.rs:472-560 | for every host, evaluating the chain from its head down the right-hand sides gives the accesses of the source applied from left to right |
| `SwitchTable.ParseSwitch` | src/parser.rs:1104-1305 | accepted if and only if the default is last and unguarded, all alternatives are literals and no number follows a range; the table then files every alternative under its hash and every range in source order |
| `SwitchTable.FileAlternative` | src/parser.rs:1241-1283 | one literal is filed, or rejected because it is a number after a range |
| `SwitchTable.HitsSplit` | src/parser.rs:1255-1273 | the alternatives that match, in source order, are the equal literals followed by the ranges |
| `SwitchTable.LookupIsScan` | src/eval/stmt.rs:502-576 | looking a value up asks the same guards in the same order and takes the same arm as scanning the arms from the top |
| `SwitchTable.UnguardedLookup` | src/eval/stmt.rs:502-576 | without guards the arm taken is the first one that covers the value, and none if no arm does |
| `SwitchLaws.HeldExactly` | src/ast/stmt.rs:254-273 | an integer is in a range exactly if it is among the numbers enumerated from the first to the last, the last one if the range is inclusive |
| `SwitchLaws.Cut` | src/ast/stmt.rs:254-300 | a range cut in two: every number of it, decimals included, is in exactly one part |
| `SwitchLaws.Between` | src/ast/stmt.rs:276-300 | a decimal from n up to n + 1 is in a range exactly if n is and the range does not end there |
| `SwitchLaws.EmptyExactly` | src/ast/stmt.rs:230-239 | a range counts as empty exactly if no number is in it |
| `SwitchLaws.RangeArm` | src/eval/stmt.rs:550-570 | without guards, an arm with a range is taken exactly for the numbers of the range that no arm before it covers |
| `SwitchLaws.HashableExactly` | src/eval/stmt.rs:502-512 | a value can be matched exactly if nothing inside it is unhashable |
| `SwitchLaws.ArmRun` | src/eval/stmt.rs:502-576 | the arm that a table leads to is the first in source order that fits and whose guard says yes; every arm before it that fits has refused; an error is that of the last guard asked |
| `SwitchLaws.UnhashableRun` | src/eval/stmt.rs:502-576 | a value that no literal equals goes to the default, unasked |
| `SwitchLaws.OrderExactly` | src/parser.rs:1255-1273 | the order of literals is refused exactly if a number stands after a range that holds some number |
| `SwitchTable.NumberOvertakesRange` | src/parser.rs:1255-1273 | why a number after a range is rejected: it would be taken before the range |
| `SwitchOptimizer.SwitchCases.Prune` | src/optimizer.rs:694-774 | pruning keeps, for every value, the guards asked, the arm taken and the body run, ranges and guards included; nothing is left to prune; dirty if and only if something changed |
| `SwitchOptimizer.SwitchCases.PruneCases` | src/optimizer.rs:720-746 | each list keeps the entries up to the first sure one that are not sure to fail, and empty lists go |
| `SwitchOptimizer.PruneList` | src/optimizer.rs:721-738 | the two passes over a list leave exactly its live entries |
| `SwitchOptimizer.SwitchCases.PruneRanges` | src/optimizer.rs:749-757 | ranges with a false guard go, the others keep their order |
| `SwitchOptimizer.SwitchCases.BlankUnused` | src/optimizer.rs:763-773 | exactly the bodies no value leads to become `()` |
| `SwitchOptimizer.SwitchCases.FoldConstant` | src/optimizer.rs:562-691 | on the constants that pass `is_hashable_constant` (ranges, arrays, decimals), the replacement keeps the meaning of the switch if and only if the table is foldable at the constant, and does the same as the code where it does not |
| `SwitchOptimizer.FoldedExactly` | src/optimizer.rs:562-691 | the exact condition: at most one literal for the value, unguarded or with no live range holding it, or several with no guard asked before the first sure one |
| `SwitchOptimizer.SwitchCases.FoldRanges` | src/optimizer.rs:624-679 | one range or only unguarded ones are decided now, otherwise the ranges that hold the value stay |
| `SwitchOptimizer.SwitchCases.TakeLiterals` | src/optimizer.rs:601-614 | arms are moved out until one is sure; the others stay emptied |
| `SwitchOptimizer.ParseAndFold` | src/optimizer.rs:562-774 | a switch on a constant that is parsed, pruned (where the scrutinee became a constant only then) and replaced runs as its arms are written if and only if the arms meet the condition; what it runs otherwise is given too |
| `SwitchOptimizer.PrunedFoldsAsWritten` | src/optimizer.rs:574-679 | once pruned, the condition says that at most one literal is left for the value and, if that one is guarded, no range is left that holds it |
| `SwitchOptimizer.GuardedArmSkipped` | src/optimizer.rs:601-614 | `switch 1..42 { 1..42 if g => .., 1..42 => .. }` is accepted and replaced by its second arm without asking `g` |
| `SwitchOptimizer.RangeSkipped` | src/optimizer.rs:574-600 | where decimals are on, `switch 42.5 { 42.5 if g => .., 0..100 => .. }` is accepted and, when `g` says no, runs no arm |
| `SwitchOptimizer.ParsedSound` | src/parser.rs:1285-1305 | a parsed table is well formed: the default is unguarded and in no list, no list is empty |
| `SwitchOptimizer.ParseAndPrune` | src/optimizer.rs:693-773 | a switch that is parsed and pruned still runs as its arms are written |
| `Imports.CompileSelfContained` | src/api/compile.rs:95-145 | for every finite import graph the worklist ends; the modules bundled are exactly those reachable by imports of a literal that stand anywhere in a script, at any depth, each resolved once, or twice if it imports itself; it fails if and only if something reachable does not load |
| `Imports.CollectImports` | src/api/compile.rs:95-117 | the paths that occur as a literal in an import at some place of the script, at any depth, and are not bundled yet are put on the list |
| `Imports.FoundExactly` | src/api/compile.rs:100-113 | the literals found are exactly those of the imports to which a path of indices through nested statements leads |
| `Imports.Resolve` | src/api/compile.rs:128-141 | imports are collected before the module itself is loaded, so a self-import is queued again |
| `Imports.Turn` | src/api/compile.rs:126-145 | every turn keeps the coverage invariant and lowers the number of paths left or the length of the list |
| `Json.FormatMapAsJson` | src/api/json.rs:153-170 | the loop over a map writes its print |
| `Json.FormatDynamicAsJson` | src/api/json.rs:173-216 | each value is appended as its print |
| `Json.FormatArray` | src/api/json.rs:185-193 | array items are separated by commas |
| `Json.IntBack` | src/api/json.rs:210-215 | every 64-bit integer is read back, the most negative one included |
| `Json.StrBack` | src/api/json.rs:210-215 | a string is read back if and only if its debug form uses only escapes the tokenizer knows, otherwise the text is malformed |
| `Json.ValueBack` | src/parser.rs:918-1101 | a printed value is read back if and only if all its strings can be |
| `Json.FieldsBack` | src/parser.rs:985-1101 | the same for the fields of a map literal |
| `Json.Parser.ParseMapLiteral` | src/parser.rs:985-1101 | the map literal parser computes the grammar of maps, rejecting a repeated key |
| `Json.Parser.ParseArrayLiteral` | src/parser.rs:918-981 | the array literal parser computes the grammar of arrays |
| `Json.ParseJson` | src/api/json.rs:63-132 | the whole text must be one map |
| `Json.RoundTrip` | src/api/json.rs:63-170 | writing a map and parsing the text gives the map back if and only if its strings can be read |
| `JsonGrammar.AcceptsExactly` | src/parser.rs:918-1101 | the parser takes exactly the token sequences of the grammar, in which the last item of a list or a map may have a comma after it, and gives the value written |
| `JsonReading.SameTokens` | src/api/json.rs:63-108 | the tokens of a text that is taken are those of the tokenizer, filtered |
| `JsonReading.ReadsGrammar` | src/api/json.rs:63-132 | a text that is read is, in the tokens of the tokenizer, a value of the grammar, and it is that value |
| `JsonReading.ReadProper` | src/parser.rs:985-1101 | every value that is read has integers of 64 bits and no key twice |
| `JsonFormat.Shape` | src/api/json.rs:153-193 | lists are in brackets, maps in braces, with a comma between any two parts and a colon after a key |
| `JsonFormat.Decimal` | src/api/json.rs:210-215 | a number is written in decimal digits, the most significant one first |
| `JsonFormat.HexText` | src/api/json.rs:210-215 | a character that is not shown is written as its code in hexadecimal digits without leading zeros |

## Left out

- Optimizer.OptimizerState.OptimizeCoalesce: promises nothing for a list whose operands may all fold to `()`, where the code folds to `false`; Limits.CoalesceFold has the exact condition for literals.
- Guarantee.OptimizeTopLevel: the value of the script is promised where it is tight or its last statement decides the value, and the meaning only for names and operands that satisfy the conditions above; Limits has a script for each.
- Optimizer.OptimizerState.OptimizeExpr: index, property and method-call chains, maps, interpolated strings, function pointers and custom syntax are not in the fragment; neither is evaluation of functions at the full optimization level.
- Optimizer.OptimizerState.OptimizeStmt: trees are rewritten as values that replace the old ones, not through mutable references; `switch` is modelled apart in SwitchOptimizer, `import`, `export` and `share` are not in this fragment.
- Rules.PropagateSim: variables resolve by name in the optimizer's evaluator; offsets that have become stale after statements were removed are not modelled there.
- Operators.OnlyBuiltin: of the built-in operators, those on 64-bit integers but the bitwise ones and the shifts, on booleans, on strings but `-`, and between different types; the others, and all on floats, decimals, characters, ranges, blobs and maps, are calls of the host.
- EvalLaws.ForCalls: loops over arrays only; ranges, strings and iterators of the host are not in the fragment.
- ExprMeaning.AstMeans: an operand that is no boolean ends a condition with an error; what the host is asked for is a token or a call, and a call knows all that came before it.
- ExprParser.PrintParse: expressions with open-ended ranges are not printed.
- ExprParser.Parser.ParsePrimary: calls, statements in expressions, array and map literals as primaries, and `??` followed by `break`, `continue`, `return` or `throw` are not in the expression grammar.
- ExprParser.NegationFits: a negated literal that overflows would become a float; integers only.
- ParserScope.ParseState.AccessVar: barrier entries of custom syntax, variable resolvers, names of script functions and strict-variables errors are not modelled.
- ParserScope.ParseState.ParseStmt: `switch` is not in this fragment, and with it a bare `let` as the action of an arm, which leaves a name on the simulated stack.
- LoweringProof.RunFor: loops over integer ranges only; values are integers and closures; host functions return values and leave no trace.
- Tokenizer.TokenIterator.Number: the value of a decimal number is not modelled, only its text and whether it parses.
- Tokenizer.TokenIterator.Step: reserved words and symbols and malformed identifiers are returned as the words and symbols they are, not as errors; character mode of custom syntax, comments kept as tokens and token mappers are left out.
- Tokenizer.TokenIterator.Run: after which `}` the parser resumes a text, and the column of each token, are inputs.
- Tokenizer.TokenIterator.Literal: positions are columns within one line, which is what line continuation needs.
- StringLiteral.QuotedRoundTrip: the maximum string length is not modelled.
- Templates.InterpolatedRead: the script in the blocks is words and symbols; a text that ends in a backslash right before a block is excluded, because the backslash escapes the interpolation.
- Compaction.Relex: identifiers, keywords and symbols only, because the compactor does not record the text of numbers, raw strings and interpolated strings in full; tokens starting with `#` are excluded.
- ChainMeaning.ChainMeans: values only; the order in which the index expressions of one chain are evaluated is not modelled.
- Chains.OptimizeComboChain: works on values instead of a mutable tail; the flags of `?.` and `?[` are not modelled.
- SwitchTable.ParseSwitch: the syntax around the arms is not modelled; literals are integers, decimals, booleans, strings, `()`, ranges and arrays, hashing does not collide with the value looked up.
- SwitchOptimizer.SwitchCases.FoldConstant: guards and bodies are taken as already optimized; of the values that arrive as dynamic constants, maps, byte arrays and curried function pointers are left out.
- Imports.CompileSelfContained: paths are taken off the list in any order, where the code takes the least; the resolver answers the same for the same path each time.
- Json.ParseJson: integers in plain digits, strings in double quotes, and white space between tokens; other literals that the code takes (numerals with separators or a radix, floats, characters, texts in back-ticks) and comments are refused here.
- JsonReading.SameTokens: the columns of tokens, which a string continued over lines depends on, are taken as 0.
- Json.RoundTrip: floats, decimals, characters, blobs, function pointers and timestamps are not printed back as what they were and are left out; a map is its list of entries in the order of its keys.
- Error messages, line and column positions, size limits other than expression depth, and feature-flag variants (but decimals in a `switch` are modelled).
- Module namespaces, `export` aliases, module lookup order, plugin functions, operator overloads and `eval`.
- Documentation comments and metadata of functions.
