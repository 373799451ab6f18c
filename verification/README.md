# A verified model of the b2 compiler

b2 is a small language with fixed-width integers, conditionals, loops and functions. Its compiler
lexes, parses with precedence climbing, checks types in two directions (inferring upwards, pushing
expected types down) and lowers the annotated tree to LLVM basic blocks. This project models those
four stages and proves what they are for: text and tree correspond, accepted programs are typed, and
compiled programs behave as their source.

## How it is built

Each stage appears twice: as functions on values, about which the theorems are stated, and as the
class the compiler has, with its fields updated in place and its loops, proved against those functions.

- `Lexing`, `LexingProofs`, `Lexicon` and the class in `TextLexer`: tokens, locations, longest runs, and exactly what
  is a token.
- `Parsing`, `Grammar`, `StatementGrammar`, `Printing`, `SingleEnd`, `TextToTree` and the class in `TokenParser`: precedence
  climbing and the statement parser decide a grammar stated without them; printing and parsing are inverse; and exactly
  which programs survive being written with one `end` per chain.
- `Checking`, `Typing`, `Inference`, `Settling`, `Scoping`, `Admission` and the classes in `Annotating` and
  `CheckVisiting`: soundness against a declarative typing relation, agreement of checking and inference, scope
  discipline, and exactly which expressions, statements and programs are accepted.
- `Codegen`, `Layout`, `WellFormedness`, `Verifying`, `Acceptance` and the class in `CodegenVisiting`:
  emission, what it leaves unchanged, when its blocks pass the LLVM verifier, when it throws.
- `Erasure`: checking adds annotations and changes nothing else.
- `Semantics` (a structured reference semantics with fuel), `Ir` (basic blocks and a step machine), `Floats` (a
  floating-point unit left open), `Arithmetic`, `Lowering`, `Behaviour`, `Safety`, `Termination`: preservation of meaning, in both directions.
- `Compiler` and `Frontend`: the stages together, with the verifier's verdict.
- `Counterexamples`: accepted programs on which the compiler fails, one for each surprising condition.

The main result is `Compiler.CompilerCorrect`. Source programs are given a meaning of their own: variables
hold mathematical integers in the range of their type, Bools or doubles, a block's names end with the block, a loop runs
until break or return, show appends to an output. The emitted blocks are run one instruction at a time.
The theorem says that both finish, trap or diverge together, with the same result and the same output, and
that the module is let through exactly when every body is tidy and ends in return and every return is 32
bits wide. It is for any floating-point unit: what a double operation computes is a parameter of both sides. For a
run that never ends the same output means: what the machine has shown after n steps is a
beginning of what the source shows on n units of fuel, and at some later step it is exactly that.

## Where the code does not do what one might expect

- A comparison checks against any expected type (`src/type_check_visitor.cxx:323-326`). "Clean" means that
  no comparison meets an expected type other than Bool; results that need it say "if and only if".
- The program check pops a scope after every function that nobody pushed (`src/type_check_visitor.cxx:194`).
  With two functions, as in the first example of the repository's README.md, an empty vector is popped.
  `Scoping.ProgramsHaveOneFunction` is exact about it, `Counterexamples.SecondFunctionFails` an instance;
  results on several functions use the check without that pop (`Checking.CheckFunctions`).
- Variable names are scoped by the checker but not by the code generator
  (`src/codegen/code_generation_visitor.cxx:107-112`): names declared in two sibling blocks are accepted and then throw
  (`Counterexamples.SiblingBlocksClash`).
- Every link of an elseif chain takes an `end` if one follows (`src/parser.cxx:254-256`).
- Every function is emitted as an i32, whatever it returns (`src/codegen/code_generation_visitor.cxx:253-254`): an
  Int8 result is accepted and rejected by the verifier (`Counterexamples.ByteReturnRejected`), an unsigned one is
  read as signed by the caller.
- `!=` and integer literals at float types are accepted and have no instruction
  (`Counterexamples.InequalityUnsupported`, `Counterexamples.IntAsFloatUnsupported`).
- A float literal is emitted as a double whatever its type (`src/codegen/code_generation_visitor.cxx:167-169`). At
  Float32 it is stored into a slot of half its size (`Counterexamples.DoubleInFloatSlot`); `DoublesOnly` is the
  condition that leaves this out, and no Float32 value can come about otherwise.
- A loop adds its back edge even after a terminator (`src/codegen/code_generation_visitor.cxx:356`), which the
  verifier then rejects (`Counterexamples.BackEdgeAfterBreak`).
- `loop_depth` has no initialiser (`include/type_check_visitor.h:125`); the model starts it at 0.

## Model

| member | source | states |
|---|---|---|
| Compiler.CompilerCorrect | src/frontend.cxx:25-42 | For every program the checker accepts function by function, clean, with fresh function names, its float literals doubles: emission throws nowhere if and only if every construct has an LLVM counterpart and no variable name is declared twice in a function; then the verifier lets the module through if and only if every source body is tidy and ends in return and every return is 32 bits wide; and if the returns are, every emitted function keeps the verifier's typing and definition rules, finishes, traps or diverges exactly when its source does, with the same output (also while it diverges) and result, and is never stuck, whatever the floating-point unit computes |
| Frontend.TextAccepted | src/frontend.cxx:19-29 | Front to middle as one equivalence: a text is lexed to such lexemes, read as such a program and accepted by the checker function by function if and only if the lexemes cut the text, spell the program, and the program is admitted - three relations that name neither lexer, parser nor checker |
| Frontend.TextBehaves | src/frontend.cxx:19-42 | The same as CompilerCorrect from source text: whatever is cut, spelled and admitted, with any number of functions and calls among them, is compiled function by function (without the program check's extra pop) to a correct module exactly when it can be emitted |
| Frontend.CompileTextBehaves | src/frontend.cxx:19-42 | The same for the whole compiler with the program check as it is, extra pop included: a text that spells more than one function, or a program that is not admitted, is an error; any other is compiled as above |
| Frontend.CompiledOnlyIf | src/frontend.cxx:19-42 | Only texts that are cut and spell an admitted program of at most one function yield a module |
| Frontend.CompileSource | src/frontend.cxx:19-42 | Lexer, parser, checker and code generator as objects, run one after the other, and the verifier's verdict on terminators and operand types, renamed functions included, give the module (or the first error) that the stage functions compose to; in particular the lexer always hands the parser a list whose only EndOfFile is last |
| Frontend.PrintedCompiles | src/frontend.cxx:19-42 | Compiling the text of a printed program, under any white space that keeps apart what would run together, is checking, emitting and verifying that program |
| Frontend.OneFunctionCheck | src/type_check_visitor.cxx:191-196 | Where the program check succeeds, its stray scope pop changes neither acceptance nor annotations |
| Frontend.Annotate | src/frontend.cxx:27-29 | Allocating the nodes of a program and visiting them leaves, in the nodes, the annotated program of the checking function |
| Frontend.GenerateModule | src/codegen/code_generation_visitor.cxx:82-84 | Visiting a program and verifying all its functions gives the module, or the first error, or the verifier's rejection, that the emission functions say |
| Lowering.SimExpr | src/codegen/code_generation_visitor.cxx:142-231 | From any stage of emission, the machine run over the code of an expression ends at the point after it with the source value in the returned operand, older registers untouched and the same output; if the source traps, falls off a callee or runs out of fuel, the machine halts the same way or is still running after at least that many steps |
| Lowering.SimBinary | src/codegen/code_generation_visitor.cxx:142-165 | Both operands are computed in order, the first survives the second, and the chosen instruction yields the word of the source result or traps with it |
| Lowering.SimVar | src/codegen/code_generation_visitor.cxx:219-231 | A load from the slot of a live variable yields its current value at its own type |
| Lowering.SimCall | src/codegen/code_generation_visitor.cxx:274-281 | A call runs the callee from a fresh frame on one unit of fuel less and returns its value to the register of the call |
| Lowering.SimBody | src/codegen/code_generation_visitor.cxx:250-264 | A whole emitted function, entered with any callers waiting, gives back the value of the source body, with the same output; a body without return ends in a block without terminator |
| Lowering.SimStmt | src/codegen/code_generation_visitor.cxx:106-377 | Every statement: ending normally reaches the emitter's new insertion point; break reaches the start of the innermost loop's end block, cycle the start of its body block, return the caller; every live source variable is then in its slot, encoded at its type |
| Lowering.SimDecl | src/codegen/code_generation_visitor.cxx:106-126 | A declaration, also when its statement is met again in a later loop iteration, leaves a fresh slot holding the value, and no other variable changes |
| Lowering.SimAssign | src/codegen/code_generation_visitor.cxx:128-140 | An assignment changes the value of that variable alone |
| Lowering.SimShow | src/codegen/code_generation_visitor.cxx:239-248 | show appends exactly the word of the shown value to the output |
| Lowering.SimReturn | src/codegen/code_generation_visitor.cxx:266-270 | return hands the 32 bits of the value to the caller, who reads them as an Int32, or halts the outermost function |
| Lowering.SimLink | src/codegen/code_generation_visitor.cxx:283-335 | An if, with or without else or elseif, runs the branch its condition selects and goes on in the end block, unless the branch leaves by a jump |
| Lowering.SimBranch | src/codegen/code_generation_visitor.cxx:296-313 | A branch that ends normally reaches the end block: it is closed by a branch exactly when it needs one |
| Lowering.SimElseIf | src/codegen/code_generation_visitor.cxx:306-313 | The rest of a chain, emitted as a nested if, lands in the same end block |
| Lowering.SimLoop | src/codegen/code_generation_visitor.cxx:343-361 | A loop runs its body until break or return; after break the machine is in the end block with the stack of enclosing loops as before |
| Lowering.SimIterations | src/codegen/code_generation_visitor.cxx:353-358 | Every iteration, whether it ends normally or by cycle, costs at least one machine step, which is what makes divergence carry over |
| Lowering.SimSeq | src/codegen/code_generation_visitor.cxx:337-341 | Statements run in order, and nothing after a jump is executed even though it was emitted |
| Lowering.NormalStaysOpen | src/codegen/code_generation_visitor.cxx:301-311 | Statements that can end normally leave the insertion block without a terminator, so the closing branch is not skipped |
| Layout.StmtGrows | src/codegen/code_generation_visitor.cxx:106-377 | Emission only appends: earlier blocks other than the current one are unchanged, numbered slots are never shared, names keep their slot, and the loop stack is restored |
| Layout.LinkGrows | src/codegen/code_generation_visitor.cxx:283-335 | The same for chains |
| Layout.BlockGrows | src/codegen/code_generation_visitor.cxx:337-341 | The same for blocks |
| Layout.LinkLands | src/codegen/code_generation_visitor.cxx:313-331 | A conditional leaves the insertion point in its end block, still empty |
| Layout.LoopLands | src/codegen/code_generation_visitor.cxx:358-361 | A loop leaves the insertion point in its end block, still empty |
| Behaviour.Preserved | src/codegen/code_generation_visitor.cxx:250-264 | Every finishing, trapping or unfinished source run of a compiled program is matched by a machine run with the same ending and output |
| Behaviour.Reflected | src/codegen/code_generation_visitor.cxx:250-264 | Every machine run that halts after n steps comes from a source run that finishes within n + 1 units of fuel, and ends the same way |
| Behaviour.DivergenceAgrees | src/codegen/code_generation_visitor.cxx:343-361 | The machine runs forever if and only if the source finishes on no fuel |
| Behaviour.DivergingOutput | src/codegen/code_generation_visitor.cxx:239-248 | If the source finishes on no fuel, then after n steps the machine has shown a beginning of what the source shows on n units of fuel, and at some later step exactly that |
| Behaviour.FuelIrrelevant | src/codegen/code_generation_visitor.cxx:250-264 | Two finishing source runs end alike whatever their fuel |
| Behaviour.NeverStuck | src/codegen/code_generation_visitor.cxx:219-231 | No run reads an unallocated or unwritten slot or an undefined register, jumps to a missing block, or mixes types |
| Behaviour.EmittedWorld | src/codegen/code_generation_visitor.cxx:233-237 | Emitting a program of fresh function names leaves every function's own blocks in the module, each emitted knowing itself and the ones before it |
| Behaviour.FirstOfName | src/codegen/code_generation_visitor.cxx:250-264 | Whatever the names: each function is emitted knowing itself and those before it; the first of a name has that name in the module, and what is emitted for a later one is kept apart |
| Arithmetic.NodeRefines | src/codegen/operation_map.cxx:6-146 | For a binary node with a meaning, the instruction picked through resolved and operand type computes it on the encoded operands: on integers wrapping + - *, division toward zero with its traps, comparison of the true values; on doubles what the floating-point unit computes for that operator |
| Arithmetic.FloatRefines | src/codegen/operation_map.cxx:109-146 | At Float32 and Float64, for any floating-point unit: an operator has an instruction exactly if it is one of the nine with a meaning, and it is that of its own operation; comparisons give a Bool |
| Arithmetic.WrappingRefines | src/codegen/operation_map.cxx:68-80 | Fixed-width add, sub and mul on words are + - * reduced into the range of the type |
| Arithmetic.DivisionRefines | src/codegen/operation_map.cxx:82-85 | sdiv and udiv divide the true values toward zero, trapping on zero and on the one quotient that does not fit |
| Arithmetic.ComparisonRefines | src/codegen/operation_map.cxx:87-107 | Signed and unsigned comparisons order the true values |
| Arithmetic.QuotientRange | src/codegen/operation_map.cxx:82-85 | A quotient leaves its type exactly for the least signed value divided by -1 |
| Arithmetic.LiteralExact | src/codegen/code_generation_visitor.cxx:171-217 | A literal in the range of its type is encoded exactly, in spite of the detour through 64 bits |
| Arithmetic.WordOfInjective | src/codegen/code_generation_visitor.cxx:44-67 | Different values of one type have different words |
| Acceptance.LlvmTypes | src/codegen/code_generation_visitor.cxx:44-80 | The types with an LLVM counterpart are Bool in one bit and the integers and floats, each of the size in its name; String and literal types have none |
| Integers.DecodeEncode | src/type_check_visitor.cxx:36-53 | A number survives storage at the width of a type, read with its signedness, if and only if the checker counts it in range |
| Integers.RangeLimits | src/type_check_visitor.cxx:36-53 | The ranges of the eight integer types in figures |
| Checking.LiteralLimits | src/type_check_visitor.cxx:36-65 | Which integer literals fit which type, in figures, floats included; no other type has any |
| WellFormedness.WellFormedIffTidy | src/codegen/code_generation_visitor.cxx:283-361 | The blocks of an emitted function each end in their only terminator if and only if nothing follows a jump in its block, no loop body ends in one, and the function body ends in return |
| Compiler.VerifiesIffTidy | src/codegen/code_generation_visitor.cxx:82-84 | For every compiled program of fresh names: each function's blocks meet the verifier's rule on terminators exactly when its body is tidy and ends in return, and all functions do exactly when all bodies are |
| Compiler.EmittedIsTyped | src/codegen/code_generation_visitor.cxx:82-84 | For accepted programs of the fragment (integers, Bool and Float64), with returns of any type: a function keeps the verifier's other rules if and only if all its returns are 32 bits wide. The rules: operand types match their instructions, what is returned is an i32, conditions are i1, callees exist, no branch goes to the entry block, and on every path a register or slot is defined, and a slot stored to, before it is used |
| Verifying.FunctionFine | src/codegen/code_generation_visitor.cxx:250-264 | For one typed body: its returns are all 32 bits wide if and only if there is an assignment of types to registers and slots, and of slots known to be stored to on entry of each block, that every instruction and every branch respects; and if and only if every operand has the type its instruction asks for by the instruction that defined it |
| Verifying.StaticTypes | src/codegen/code_generation_visitor.cxx:266-270 | An assignment of types has no choice: wherever the rules can be kept at all, every operand has the type its instruction asks for by the instruction that defined it, so the types alone can be decided block by block |
| Compiler.GenerateIff | src/codegen/code_generation_visitor.cxx:82-84 | For accepted programs of the fragment code generation delivers the module if and only if every body is tidy and ends in return and every return is 32 bits wide; otherwise the verifier rejects it |
| Verifying.StmtFine | src/codegen/code_generation_visitor.cxx:106-377 | Emitting a statement extends such an assignment; whatever was stored to before the statement still is after it, also past break, cycle, return and repeated bodies |
| Verifying.ExprFine | src/codegen/code_generation_visitor.cxx:142-231 | The operand of a typed expression has the LLVM type of its type |
| Counterexamples.BackEdgeAfterBreak | src/codegen/code_generation_visitor.cxx:353-361 | loop break end return 0 is accepted, clean and emitted, and rejected by the verifier |
| Counterexamples.ByteReturnRejected | src/codegen/code_generation_visitor.cxx:253-254 | x: Int8 = 1 return x is accepted, clean, emitted and tidy, and rejected by the verifier because every function is an i32 |
| Counterexamples.RenamedIsVerified | src/codegen/code_generation_visitor.cxx:31-36 | A function called printf is renamed and verified all the same: an empty one is rejected |
| WellFormedness.StmtShape | src/codegen/code_generation_visitor.cxx:283-377 | Per statement: tidy source leaves complete blocks and one open (or just terminated) insertion block; untidy source leaves a terminator in mid-block that nothing emitted later can mend |
| WellFormedness.LoopShape | src/codegen/code_generation_visitor.cxx:353-361 | The unconditional back edge breaks the block exactly when the body ends in a jump |
| WellFormedness.LinkShape | src/codegen/code_generation_visitor.cxx:283-335 | The conditional closing branches never break a block |
| Acceptance.EmissionSucceedsIff | src/codegen/code_generation_visitor.cxx:106-377 | A function typed by the checker is emitted without error if and only if every construct has an LLVM counterpart and no variable name is declared twice in its body, sibling blocks included |
| Counterexamples.SiblingBlocksClash | src/codegen/code_generation_visitor.cxx:106-112 | A function that declares one name in two sibling ifs is accepted and then thrown out as a duplicate declaration |
| Counterexamples.InequalityUnsupported | src/codegen/operation_map.cxx:62-64 | show 1 != 2 is accepted and then thrown out for want of an instruction |
| Counterexamples.IntAsFloatUnsupported | src/codegen/code_generation_visitor.cxx:190-192 | x: Float32 = 1 is accepted and then thrown out as a literal that is no integer |
| Counterexamples.DoubleInFloatSlot | src/codegen/code_generation_visitor.cxx:167-169 | x: Float32 = 0.5 is accepted, emitted and let through by the verifier, and run it stores a double into a float slot |
| Acceptance.ExprEmitted | src/codegen/code_generation_visitor.cxx:142-231 | For a typed expression none of the throw sites is reached exactly when literals, variables and operators are supported at their types |
| Acceptance.SeqEmitted | src/codegen/code_generation_visitor.cxx:337-341 | The same for statement lists, while the checker's scopes stay covered by the flat variable map and its loop depth by the loop stack |
| Acceptance.FragmentIff | src/codegen/code_generation_visitor.cxx:142-231 | For a typed body whose float literals are doubles, having an LLVM counterpart throughout is being in the fragment that the machine gives a meaning |
| Compiler.ProgramEmittedIff | src/codegen/code_generation_visitor.cxx:233-237 | A program typed function by function is emitted if and only if every construct has an LLVM counterpart and no function declares a name twice |
| Compiler.AcceptedCompiles | src/codegen/code_generation_visitor.cxx:233-237 | What is emitted for an accepted program of the fragment is a module that matches it function by function; it never goes wrong if its returns are 32 bits wide |
| Compiler.CheckedFunctions | src/type_check_visitor.cxx:198-204 | Checking keeps names and order, leaves every body concrete, and types body i against the functions before it alone, exactly when it is clean |
| Safety.EvalNeverWrong | src/type_check_visitor.cxx:468-510 | A typed expression of the fragment evaluates to a value of its type or stops for a legitimate reason, never on an ill-typed construct |
| Safety.SeqNeverWrong | src/type_check_visitor.cxx:134-175 | The same for statements: declared variables stay valued at their types through break, cycle and repeated bodies, and jumps only leave loops |
| Safety.RunNeverWrong | src/type_check_visitor.cxx:191-204 | No run of a typed program whose returns are 32 bits wide goes wrong |
| Termination.CallsGoBack | src/type_check_visitor.cxx:191-204 | In every program the checker accepts function by function, each call in body i is to a function before i; cleanness, distinct names and the fragment are not needed |
| Termination.LoopFreeTerminates | src/type_check_visitor.cxx:191-204 | Every accepted loop-free program terminates: function number i on i units of fuel, with nothing else asked of the program |
| Erasure.FunctionsErase | src/type_check_visitor.cxx:191-204 | Checking only annotates: without annotations the checked program is the parsed one, so loops, calls and tidiness can be read off the source |
| Erasure.CheckErases | src/type_check_visitor.cxx:354-373 | A check changes annotations and nothing else |
| Typing.InferSound | src/type_check_visitor.cxx:468-510 | A concrete inferred type is a sound typing with no proviso; a literal one means arithmetic over literals only |
| Typing.CheckSound | src/type_check_visitor.cxx:354-398 | After a successful check no literal type is left and literals fit; the tree has the expected type if and only if no comparison met an expected type other than Bool |
| Typing.TopLevelSound | src/type_check_visitor.cxx:122-132 | Settling literals by default is sound with no proviso |
| Typing.ComparisonPassesAsInt32 | src/type_check_visitor.cxx:323-326 | The proviso is needed: 1 == 2 checks against Int32 and is not of that type |
| Typing.FindIsFlat | src/type_check_visitor.cxx:107-114 | Lookup in the scope stack is lookup in one map in which outer scopes win |
| Inference.InferFollowsCheck | src/type_check_visitor.cxx:354-398 | If a clean expression checks against T, it infers T or a literal type promotable to T |
| Inference.CheckReproducesInfer | src/type_check_visitor.cxx:517-530 | If an expression infers a concrete T, checking against T succeeds with the very same annotations |
| Settling.CheckIffAllPass | src/type_check_visitor.cxx:262-334 | For every expression: checking against T succeeds if and only if every leaf of its arithmetic passes - names and literals fit T, comparisons compare for themselves |
| Settling.ComparisonIffSettles | src/type_check_visitor.cxx:468-510 | For all five comparison operators, whatever their operands: a comparison is accepted with operand type T if and only if the leaves of both sides together settle to T; it is then a Bool over its sides checked against T |
| Inference.CheckIgnoresAnnotations | src/type_check_visitor.cxx:354-373 | Earlier annotations never influence a check: they are overwritten |
| Inference.TopLevelStable | src/type_check_visitor.cxx:122-132 | Checking or inferring an annotated tree again changes nothing |
| Inference.CheckStable | src/type_check_visitor.cxx:354-373 | Checking twice is checking once |
| Settling.TopLevelIffSettles | include/type_check_visitor.h:44-77 | Every expression on its own is accepted as a T if and only if its multiset of leaves settles to T: all fit T, comparisons counting as Bool, and T is the type of the typed leaves or else the default |
| Settling.OrderIrrelevant | src/type_check_visitor.cxx:442-510 | Acceptance and type depend on the multiset of leaves alone, not on grouping, operand order or operators |
| Scoping.StmtSound | src/type_check_visitor.cxx:215-260 | An accepted statement is concrete throughout, stores only concrete types, and is typed exactly when it is clean |
| Scoping.BlockSound | src/type_check_visitor.cxx:167-175 | The same for blocks |
| Scoping.ConditionIsBool | src/type_check_visitor.cxx:156-158 | An accepted condition has type Bool, whatever its operands are |
| Scoping.StmtScopes | src/type_check_visitor.cxx:134-260 | A statement changes the checker state by at most one new name in the innermost scope; loop depth and functions are as before, and no name ever lives in two scopes |
| Scoping.BlockScopes | src/type_check_visitor.cxx:167-175 | A block gives back the whole state as it was |
| Scoping.DirectionIrrelevant | src/type_check_visitor.cxx:107-114 | While no name lives in two scopes, the outermost-first search agrees with an innermost-first one |
| Scoping.ProgramsHaveOneFunction | src/type_check_visitor.cxx:191-196 | The program check, with its extra pop per function, succeeds if and only if there is at most one function and it checks |
| Admission.StmtAdmitted | src/type_check_visitor.cxx:134-260 | A statement is accepted if and only if it is admitted, said of the bare statement, one map of the names of all enclosing scopes and whether a loop is around: a declared name is new and its value passes as the written type or settles; an assigned name is in scope and the value passes as its type; shown and returned expressions settle; conditions pass as Bool; jumps are in loops |
| Admission.DeclarationAdmitted | src/type_check_visitor.cxx:134-154 | A declaration is accepted and gives its name type T exactly when it declares it as a T |
| Admission.SeqAdmitted | src/type_check_visitor.cxx:167-175 | Lists of statements are accepted exactly when admitted: a declared name is in scope for what follows |
| Admission.BlockAdmitted | src/type_check_visitor.cxx:167-175 | The same for blocks, whose names end with them |
| Admission.LinkAdmitted | src/type_check_visitor.cxx:156-165 | The same for chains |
| Admission.FunctionsAdmitted | src/type_check_visitor.cxx:198-204 | Functions are accepted one after the other if and only if each body is admitted with no variable and the functions before it, as Int32s, in scope |
| Admission.ProgramAdmitted | src/type_check_visitor.cxx:191-196 | The program check with its extra pop accepts exactly the admitted programs of at most one function |
| Counterexamples.SecondFunctionFails | src/type_check_visitor.cxx:191-196 | Two functions that each return 0 pass one by one and not as a program |
| Checking.BuiltinNames | include/parser.h:11-19 | The names the parser accepts are those of the writable types, each standing for its own type |
| Grammar.ReadIffSpells | src/parser.cxx:118-131 | Next to a token that is no tighter operator and no opening parenthesis, tokens parse to a tree if and only if they spell it: left operands may bind as tightly as the operator, right ones must bind tighter |
| Grammar.SpellingRead | src/parser.cxx:118-131 | Every spelling of a tree, with any redundant parentheses, is read as that tree |
| Grammar.ReadSpelled | src/parser.cxx:91-131 | Whatever is read was spelled by exactly the tokens consumed, and reading stops only before a token that cannot extend it |
| Grammar.ThreeOperands | src/parser.cxx:6-25 | Two operators group to the right only if the second is in a tighter tier; within a tier they group to the left |
| StatementGrammar.ProgramIffSpells | src/parser.cxx:216-224 | A token list ending in its only EndOfFile is read as a program if and only if the tokens before it spell that program, redundant parentheses included, each link before another link closed by an end of its own or not, but not before an end it could take |
| StatementGrammar.StatementIffSpells | src/parser.cxx:177-199 | Before a token that cannot go on an expression, tokens are read as a statement, up to there, if and only if they spell it |
| StatementGrammar.ProgramSpelled | src/parser.cxx:216-224 | Whatever spells a program is read as that program |
| StatementGrammar.StatementSpelled | src/parser.cxx:177-199 | The same for statements |
| StatementGrammar.LinkSpelled | src/parser.cxx:233-259 | The same for the links of a chain |
| StatementGrammar.BlockSpelled | src/parser.cxx:261-270 | The same for blocks before a terminator |
| StatementGrammar.FunctionSpelled | src/parser.cxx:201-214 | The same for functions |
| StatementGrammar.ProgramRead | src/parser.cxx:216-224 | Whatever program is read is spelled by exactly the tokens before the end of file |
| StatementGrammar.StatementRead | src/parser.cxx:177-199 | The same for statements and the tokens they consume |
| StatementGrammar.LinkRead | src/parser.cxx:233-259 | The same for one link of a chain, with its end where it took one |
| StatementGrammar.BlockRead | src/parser.cxx:261-270 | The same for blocks |
| Printing.PrintedSpells | src/parser.cxx:64-131 | Minimal parentheses suffice |
| Printing.ExpressionRoundTrip | src/parser.cxx:118-131 | Printed at level m and followed by a token that cannot extend it, an expression parses back to itself and parsing stops at that token |
| Printing.StatementRoundTrip | src/parser.cxx:143-199 | Printed statements parse back to themselves |
| Printing.LinkRoundTrip | src/parser.cxx:233-259 | So do chains that have one end per link |
| Printing.BlockRoundTrip | src/parser.cxx:261-270 | So do blocks before any terminator |
| Printing.ProgramRoundTrip | src/parser.cxx:201-224 | Program round trip with an end for every if and elseif |
| SingleEnd.ShortRoundTrip | src/parser.cxx:233-259 | With a single end per chain, a program is read back as itself if and only if it is balanced: counting the ends that each elseif chain takes from its surroundings, every function keeps its own |
| SingleEnd.ReadsChain | src/parser.cxx:247-256 | For every chain before any number of ends: whether it is read as itself, and how many ends it takes |
| SingleEnd.ReadsAll | src/parser.cxx:261-270 | The same for blocks |
| SingleEnd.ApartRoundTrip | src/parser.cxx:247-256 | Programs in which no elseif chain is the last statement of a block are read back as they are |
| SingleEnd.ChainBeforeEndMisread | src/parser.cxx:247-256 | A concrete failure: an elseif chain directly before the end of its function |
| LexingProofs.LexerRoundTrip | src/lexer.cxx:77-142 | Any tokens other than strings, written with any white space between them or none, lex back to themselves if and only if there is white space wherever two neighbours would run together |
| LexingProofs.LexemesPartition | src/lexer.cxx:42-142 | For any accepted text: lexemes cover it in order, separated by white space only, each taking all it can, up to a stop that is the end, a NUL or a character that starts no token; a string token lacks only its opening quote; EndOfFile is last and only there |
| LexingProofs.LocationClosedForm | src/lexer.cxx:144-153 | Line and column after a prefix, from its newlines and its last line |
| TextToTree.TextRoundTrip | src/lexer.cxx:130-142 | Printing, writing with white space at least where tokens would run together, lexing and parsing a program gives it back |
| TextToTree.ShortTextRoundTrip | src/parser.cxx:233-259 | Text written with one end per chain, and white space at least where tokens would run together, always lexes, and is read back as the program it was written for if and only if that program is balanced |
| Lexicon.CharacterClasses | src/lexer.cxx:9-33 | White space is six characters, digits are ten, words are over letters, digits, underscore and dash, symbols over thirteen characters, all written out (in the C locale) |
| Lexicon.Tables | include/token_type.h:85-118 | The fifteen keywords and fourteen symbols, written out |
| Lexicon.KeywordIff | include/token_type.h:85-101 | A word is a keyword if and only if it is spelled as it |
| Lexicon.SymbolIff | include/token_type.h:103-118 | A run of symbol characters is a symbol if and only if it is spelled as it |
| Lexicon.WordsScanned | src/lexer.cxx:77-88 | Every word over that alphabet that starts with a letter or an underscore is read, before anything that is no word character, as one token of exactly that text: the keyword it spells, or else an identifier |
| Lexicon.ScanIffReads | src/lexer.cxx:42-128 | For every text: which token it starts with and how much it takes, exactly - a string up to its only closing quote, the longest symbol that is spelled so, a parenthesis alone, the longest number or word - and that it is an error exactly for a string without end and a run of symbol characters that spells nothing |
| Lexicon.LexemesIffCuts | src/lexer.cxx:90-142 | The lexer's answer on a text is the one way of cutting it into white space and such tokens |
| Lexicon.TokensLocated | src/lexer.cxx:90-107 | Every token is located where the text before its first character leads; an end of file in white space or at a NUL where the token before it is |
| Numerals.Positional | src/parser.cxx:108-116 | An integer literal is read in decimal, every digit at its place |
| CodegenVisiting.CodegenVisitor.constructor | src/codegen/code_generation_visitor.cxx:26-37 | A module that knows printf alone, no function, no loop |
| CodegenVisiting.CodegenVisitor.VisitExpr | src/codegen/code_generation_visitor.cxx:142-231 | The visit leaves builder and operand as the expression emitter says, or throws its error |
| CodegenVisiting.CodegenVisitor.VisitStmt | src/codegen/code_generation_visitor.cxx:106-377 | The visit leaves blocks, insertion point, variable map and loop stack as the statement emitter says |
| CodegenVisiting.CodegenVisitor.VisitIf | src/codegen/code_generation_visitor.cxx:283-335 | Creating blocks, branching, moving the insertion point and closing branches in place amounts to the chain emitter |
| CodegenVisiting.CodegenVisitor.VisitLoop | src/codegen/code_generation_visitor.cxx:343-361 | Pushing and popping the loop stack in place amounts to the loop emitter |
| CodegenVisiting.CodegenVisitor.VisitBlock | src/codegen/code_generation_visitor.cxx:337-341 | The loop over the statements amounts to the block emitter |
| CodegenVisiting.CodegenVisitor.VisitFunction | src/codegen/code_generation_visitor.cxx:250-264 | Clearing the variable map and starting an entry block; the function is in the module before its body is visited |
| CodegenVisiting.CodegenVisitor.VisitProgram | src/codegen/code_generation_visitor.cxx:233-237 | The module after all visits is the compiled program |
| CodegenVisiting.BlockKeepsLoops | src/codegen/code_generation_visitor.cxx:343-361 | A block leaves the loop stack as it was, so the pop after a loop removes that loop |
| CheckVisiting.VariableScopeStack.Find | src/type_check_visitor.cxx:107-114 | The search over the scope vector, from the outside, returns the first hit |
| CheckVisiting.VariableScopeStack.Store | src/type_check_visitor.cxx:118-120 | Only the innermost scope changes, and there only the key |
| CheckVisiting.TypeCheckVisitor.Infer | src/type_check_visitor.cxx:517-530 | Writing annotations into the nodes in place, the visit returns the inferred type and leaves the inferred tree |
| CheckVisiting.TypeCheckVisitor.InferBinary | src/type_check_visitor.cxx:468-510 | First literal types are written, then the type found is pushed down over them |
| CheckVisiting.TypeCheckVisitor.ResolveLiteralPair | src/type_check_visitor.cxx:442-466 | The literal side, and no other node, takes the concrete type |
| CheckVisiting.TypeCheckVisitor.Check | src/type_check_visitor.cxx:354-373 | Overwriting in place leaves the checked tree |
| CheckVisiting.TypeCheckVisitor.CheckBinary | src/type_check_visitor.cxx:319-334 | A comparison is inferred whatever is expected of it; arithmetic passes the expected type on |
| CheckVisiting.TypeCheckVisitor.InferTop | src/type_check_visitor.cxx:122-132 | Literal types are defaulted and pushed back down in place |
| CheckVisiting.TypeCheckVisitor.VisitVarDecl | src/type_check_visitor.cxx:134-154 | The declared type is written into the node, the value's nodes are annotated, and the name is stored with the type in the innermost scope |
| CheckVisiting.TypeCheckVisitor.VisitStmt | src/type_check_visitor.cxx:206-260 | The visit annotates the statement's nodes in place and changes scopes, loop depth and functions as the statement check says |
| CheckVisiting.TypeCheckVisitor.VisitIf | src/type_check_visitor.cxx:156-165 | Condition and branches in order, each branch in a scope of its own, an elseif as an if in the else part |
| CheckVisiting.TypeCheckVisitor.VisitBlock | src/type_check_visitor.cxx:167-175 | Push, visit every statement, pop |
| CheckVisiting.TypeCheckVisitor.VisitAll | src/type_check_visitor.cxx:170-172 | The loop over the statements annotates them one after the other as the check of the whole list says |
| CheckVisiting.TypeCheckVisitor.VisitNext | src/type_check_visitor.cxx:170-172 | Visiting one statement leaves the nodes of all others as they are |
| CheckVisiting.TypeCheckVisitor.VisitFunction | src/type_check_visitor.cxx:198-204 | The function is registered after its body has been checked |
| CheckVisiting.TypeCheckVisitor.VisitProgram | src/type_check_visitor.cxx:191-196 | One scope is popped after every function |
| TokenParser.Parser.PeekToken | src/parser.cxx:47-50 | The index never passes EndOfFile, so the guard against running out of bounds is never used |
| TokenParser.Parser.Expression | src/parser.cxx:118-131 | The precedence loop over an index reads what the parsing function reads, consumes at least one token on success, and terminates |
| TokenParser.Parser.Primary | src/parser.cxx:91-106 | The same for primary expressions |
| TokenParser.Parser.VariableDeclaration | src/parser.cxx:143-159 | The same for declarations |
| TokenParser.Parser.Statement | src/parser.cxx:177-199 | The same for every statement |
| TokenParser.Parser.IfStatement | src/parser.cxx:233-259 | The same for one link of a chain, which takes an end if one is next |
| TokenParser.Parser.Block | src/parser.cxx:261-270 | The same for blocks, which may consume nothing |
| TokenParser.Parser.TopLevel | src/parser.cxx:216-224 | On success the whole token list has been read |
| TextLexer.Lexer.Advance | src/lexer.cxx:144-153 | The current location is always that of the text read so far |
| TextLexer.Lexer.ParseNumber | src/lexer.cxx:42-56 | The scan takes the longest number at the index |
| TextLexer.Lexer.ParseStringLiteral | src/lexer.cxx:58-75 | The token keeps its closing quote and loses its opening one |
| TextLexer.Lexer.NextToken | src/lexer.cxx:90-107 | One lexeme with the location of its first character, or the last one known at the end |
| TextLexer.Lexer.Tokenise | src/lexer.cxx:130-142 | The whole token vector with locations, up to and with EndOfFile |

## Left out

- Lowering.SimReturn: results of other than 32 bits have no meaning in the source semantics; the verifier rejects them (Compiler.GenerateIff).
- Lowering.SimShow: the output is the sequence of shown words; `%d` formatting, and what printf reads of a 64-bit, 8-bit or double argument, are not modelled.
- Frontend.GenerateModule: the LLVM verifier is modelled by its rules on terminators and operand types, which are decided and can fail, and by those on the entry block and definition before use, which are proved to hold for accepted programs of the fragment; its rules on attributes, linkage, debug data and other features never emitted here are not modelled.
- Compiler.CompilerCorrect: programs with a float literal at Float32 are emitted as in the code and have no meaning in the source semantics; Counterexamples.DoubleInFloatSlot is one on which the machine gets stuck. What an operation on doubles computes is left open and the same on both sides; rounding, infinities and NaNs are in that parameter.
- Typing.CheckSound: whether a float literal fits a float type is a parameter, since it depends on `stod` and binary floating point; integer literals against float types are modelled with their exact bounds.
- Behaviour.Preserved: division by zero and the unrepresentable signed quotient, undefined in LLVM, stop the machine in an ending of their own, and so does control that reaches the end of a block without terminator.
- Behaviour.EmittedWorld: a second function of a taken name is renamed by LLVM and cannot be called; it is recorded apart and verified, under no name, and the theorems on behaviour ask for fresh names.
- Frontend.CompileSource: the parser returns trees, and nodes to be annotated in place are allocated from them before the checker runs; the code generator visits the tree read back from the nodes.
- CheckVisiting.TypeCheckVisitor.VisitProgram: popping an empty scope vector is undefined; the model stops with an error.
- CodegenVisiting.CodegenVisitor.VisitExpr: an integer literal without annotation, which the code would dereference, is an error; no checked program has one.
- CodegenVisiting.CodegenVisitor.VisitProgram: what an interrupted visit leaves in the fields is not described; the original throws and gives up.
- TokenParser.Parser.Primary: literal values are natural numbers read as plain decimals; overflow of the 128-bit type and its reading of leading zeros as octal are not modelled (Numerals.Positional).
- LexingProofs.LexerRoundTrip: string tokens are not rendered; the parser accepts none.
- Error kinds: all errors of one stage are one class in the code and differ in their texts; which of several a rejected input gets first is as in the code, and only rejection is characterised independently.
- The instruction builder's constant folding and the names it gives to values: instructions are emitted as requested.
- `loop_depth` is a 32-bit counter in the code and unbounded here.
- Error texts, source locations inside the syntax tree, the print visitor and token printing.
- Reading files, the command line, object emission, linking, and `src/type_checking.cxx`, which is unused.
- The compile-time maps of `include/utils/container.h`: plain lookups here.
- Operators `and`, `or`, `not`, `in`: lexed, used nowhere. `!=` is parsed and typed as arithmetic, and no instruction exists for it.
