# A verified model of the LSTF compiler

LSTF compiles a scripting language for language servers to bytecode. This project models the parts of it that are
hard to get right and proves what they promise, for all inputs:

- the code generator, which turns statements into a control-flow graph of basic blocks;
- the back end, which removes empty blocks, finds by a data-flow analysis where locals are popped, lays the graph out
  as stack code and resolves jumps on the way;
- the binary format: offsets that are computed before anything is written, and the encoding of instructions;
- the expression parser with its look ahead for lambdas, and the recovery from statements that have errors;
- subtyping, string literals, and the three data structures everything rests on: bit sets, doubly linked rings, and
  the ordered hash map.

The main result is `Compiler.Compile`: for every body of the fragment below, every meaning of the instructions, every
arguments and every history, running the stack code that comes out ends, and only in the way in which evaluating the
body ends. `Variables.VariablesAreInSlots` adds that every variable then holds its value in its slot, and
`Assembly.BinaryImplements` that the code that can be read back from the binary still does the same.
`OperatorMeaning.NumbersExactly` says what that comes to on the virtual machine: `return x + y;` returns the sum.

The fragment: bodies that return a value on every path, made of `let` outside of branches, assignments, assertions,
calls, `if` with and without `else`, and `return`, over literals, variables, unary and binary operators other than
`??`, and direct calls.

## How the model is built

- Code of the repository that updates state is imperative here too: `Generators.Generator`, `Simplifiers.Simplifier`,
  `PopPoints.Analysis`, `Emitters.Emitter`, `Serializer.Writer`, `Parsers.Parser`, `TypeComparison.UnionType`,
  `IntSets.IntSet`, `PtrLists.List` and `HashMaps.HashMap` are classes whose methods are proved against
  specification functions (`GenFunction`, `RemoveOne`, `Solves`, `PlaceFunction`, `CodeBytes`, `ParseExpression`,
  `IsSupertype`, sets, sequences, `Put`). The theorems are about those functions.
- References between instructions, blocks and functions are indices, not pointers.
- What an instruction does to its operands is a parameter, `Semantics`: the theorems hold whatever operators and
  called functions do, as long as each takes its operands and leaves a result or a fault. The stack discipline of the
  virtual machine (`else`, `jump`, `pop`, `params`, `return`) is modelled as it is. `VirtualMachine` is the semantics of
  the machine itself, for integers, booleans, texts and null.
- Where two sides of a theorem look up the same table (operators and instructions, levels of precedence, opcodes,
  tokens at which a statement starts, rules of types), a theorem says entry by entry what the table comes to:
  `OperatorMeaning`, `Precedence`, `Opcodes`, `Recovery.SkipsOtherTokens`, `TypeRules`. `Loader` reads the binary as the
  virtual machine does, without the definitions that it is written by.
- What the generator has to know of the graph for the proofs (the shape of the stack at the head of each block, an
  order of the blocks) is kept in `Typing.Notes` next to the graph, and plays no part in what is generated.
- Numbers are unbounded except where a width matters: the words of bit sets, the bytes, words and signed words of
  the binary.

## Findings

The code does not keep these promises in full. Each has its input and the exact condition, both proved.

| promise | input that breaks it | when it is kept |
|---|---|---|
| a block that falls through to a block laid out before it, or to itself, gets a jump | `LayoutLimits.SpinningIsLost` (a block that is its own successor), `LayoutLimits.LoopingIsLost` (a condition whose taken block is placed already) | `LayoutLimits.FallsExactly`: exactly if the first successor is not the block itself, and in a condition has not been laid out before |
| locals on the stack are the same whichever way control takes | `TailConditionals.BodyIsUnbalanced`: `if true { let x = 0; if true { assert true; } } return 0;`, compiled from the statements on | `LeastPops.LevelExactly`: on every graph exactly if, wherever control divides, no local can be avoided on the way to the one block that can be on the way to the other; `PopTheorems.LevelExactlyOnGraph`: without cycles exactly if the same locals are allocated on all paths to either |
| what the analysis reports is allocated on every path | `PopTheorems.UnsoundAtLoopedEntry`: an entry that is led back to (the generator makes none) | `LeastPops.SoundExactlyOnGraph`: exactly if each local that the entry does not allocate can be avoided on the way back from it; always when nothing leads to the entry (`PopTheorems.SoundFunctions`) |
| a local that is allocated ahead of a loop lives on in it | `PopLimits.PoppedAheadOfLoop`: any loop (the generator makes none) | never: `PopLimits.LoopsForget`; what is reported on any graph says `LeastPops.ReportedExactly` |
| an empty block can be removed | `MissingReturns.JoinIsMissed`: the block behind the `if` of `if true { return 1; }`, which has one return and so is given no other | `Simplify.RemovableExactly`: exactly if nothing leads to the block or it leads on |
| recovery gets on | a statement that starts with `for` (`Recovery.ForNeverEnds`) | `Recovery.StuckExactly`; every list ends that does not get to `for` (`Recovery.EndsUnlessFor`) |
| every operator that is compiled can be executed | `-x`, `~x` and `x in y`: the machine has no instruction for them (`OperatorMeaning.UnaryOnMachineExactly`, `OperatorMeaning.OnMachineExactly`) | exactly for all other operators, by the same two |
| subtyping is transitive | `bool`, `int` and `double` together: `int` takes `bool`, `double` takes `int`, but not `bool` | `Subtyping.TransitiveExactly`: exactly for types without all three of them |
| a union takes another if each option of that is taken by one of its own | `Unions.UnionsAreReversed`: a union with an integer takes one with a number, not the other way round | `Unions.ComparedExactly`: for the unions of any types exactly if no two of the types are related one way only, and `any`, if it is one of them, takes all of them |
| a type takes what an option of a union takes that it takes | `Subtyping.AnyTakesVoidInUnion` | `Subtyping.ThroughUnionExactly`: exactly if it is not `any`, or the option is neither `void` nor a future |
| every type takes itself | `Reflexivity.OverridingBreaksReflexivity`: an interface that gives an inherited member another type; `Reflexivity.DiamondBreaksReflexivity`: one whose bases give a name different types | `Reflexivity.TakesItselfExactly`: a type without unions exactly if, in every interface it is made of, each member, declared or inherited from any ancestor, takes the member that is found under its name |
| the count of a bit set | a set whose padding has bit `size` | `IntSets.IntSet.Count`: exactly if that bit is clear, as it is in clean sets (`IntSets.IntSet.CleanIsCounted`) |
| every escape has a meaning of its own | a backslash ahead of the letter t | `StringLiterals.EscapesExactly`: a backslash is just left out exactly ahead of what is none of a, b, f, n, r and v |

## Model

| member | source | states |
|---|---|---|
| Compiler.Compile | src/compiler/lstf-codegenerator.c:1051-1105 | the compiler as it runs, phase after phase, gives code that implements the body: every call ends, with the result, history or fault of evaluating the body, and in no other way |
| Compiler.CompilerIsCorrect | src/compiler/lstf-ir-program.c:342-916 | the same of the specification functions, for every solution the analysis may have found |
| Compiler.AllCallsCorrect | src/compiler/lstf-ir-program.c:342-916 | for every semantics, arguments and history |
| Compiler.SimplifiedIsCompact | src/compiler/lstf-ir-program.c:113-198 | the graph of a body without its empty blocks is typed: shapes of the stack agree along every edge, and every block has instructions and can be reached |
| OperatorMeaning.BinaryOperatorsExactly | src/compiler/lstf-codegenerator.c:742-845 | what the code compiled for `return x op y;` computes, operator by operator: the result of the instruction named there, whatever instructions do, and the negation of `==` for `!=` |
| OperatorMeaning.UnaryOperatorsExactly | src/compiler/lstf-codegenerator.c:1471-1507 | the same of `return op x;` |
| OperatorMeaning.NumbersExactly | src/vm/lstf-virtualmachine.c:905-1185 | on the virtual machine the compiled code returns a + b, a - b, a * b, the quotient, the remainder, the power and each comparison of two integers, as far as 64 bits go |
| OperatorMeaning.BitsExactly | src/vm/lstf-virtualmachine.c:1187-1211 | and the bits in both, in either and in one of them, and shifted ones |
| OperatorMeaning.BooleansExactly | src/vm/lstf-virtualmachine.c:851-904 | of two booleans it returns and, or, equality and inequality, and everything else is a fault |
| OperatorMeaning.WrongTypesFault | src/vm/lstf-virtualmachine.c:905-1211 | operands of other types are faults; of a remainder only if neither is a number |
| OperatorMeaning.NegationExactly | src/vm/lstf-virtualmachine.c:889-904 | a negation returns the other boolean, and is a fault for all else |
| OperatorMeaning.OnMachineExactly | src/vm/lstf-virtualmachine.c:1281-1346 | a binary operator has operands that the machine gives a value of if and only if it is not `in`, whose uses are all faults |
| OperatorMeaning.UnaryOnMachineExactly | src/vm/lstf-virtualmachine.c:1481-1486 | a unary operator has one if and only if it is `!`: the negative and the complement are always faults |
| OperatorMeaning.ChoosesExactly | src/compiler/lstf-codegenerator.c:1107-1161 | `if x { return y; } else { return z; }` returns y if x is true, z if it is false, and is a fault if it is no boolean |
| OperatorMeaning.GivesTheGreater | src/compiler/lstf-codegenerator.c:1107-1161 | `let m = x; if m < y { m = y; } return m;` returns the greater of two integers |
| OperatorMeaning.OperandsInOrder | src/compiler/lstf-codegenerator.c:693-845 | the calls in `return f(x, y) op g(y);` are made from left to right, each with its arguments in their order |
| OperatorMeaning.EffectsInOrder | src/compiler/lstf-codegenerator.c:435-546 | `f(x, y); assert x; return y;` calls, then asserts, then returns, and ends at the first fault |
| VirtualMachine.OperatorsOnStack | src/vm/lstf-virtualmachine.c:851-1211 | operators take their operands off the top of the stack, the first one lowest, and leave their result |
| VirtualMachine.KindsOnStack | src/vm/lstf-virtualmachine.c:1266-1279 | an assertion leaves nothing on the stack, a constant its value, a call its result if it has one |
| VirtualMachine.MovesOnStack | src/vm/lstf-virtualmachine.c:767-806 | loads, stores, pops, parameters, jumps, `else` and returns: the next instruction and the stack there |
| VirtualMachine.PowInt | src/util.h:114-126 | repeated squaring computes the power |
| VirtualMachine.RoundsTowardZero | src/vm/lstf-virtualmachine.c:1143-1185 | quotient and remainder make up the dividend, and the remainder has its sign |
| Variables.VariablesAreInSlots | src/compiler/lstf-codegenerator.c:1509-1540 | when a call has ended, every variable holds in its slot the value that the evaluator leaves it with |
| Variables.LoadsNameSlots | src/compiler/lstf-ir-program.c:461-485 | every load and store that is emitted names the slot of what it loads or stores |
| Variables.CompiledLoadsNameSlots | src/compiler/lstf-ir-program.c:461-485 | the same for the code of every compiled body |
| BodyMeaning.BodyRuns | src/compiler/lstf-codegenerator.c:1051-1105 | the generated graph computes what the body means: result, history, faults and the values of all variables |
| GenMeaning.StmtsRuns | src/compiler/lstf-codegenerator.c:435-546 | the same of a list of statements at any point of the generation, inside branches too |
| LineMeaning.ExprComputes | src/compiler/lstf-codegenerator.c:693-845 | the code of an expression leaves its value, and no other temporary changes |
| Generators.Generate | src/compiler/lstf-codegenerator.c:1051-1105 | the visitors, which append to blocks and keep the current one, generate the graph that the specification says |
| Generators.Generator.VisitIf | src/compiler/lstf-codegenerator.c:1107-1161 | the state behind an `if` is that of the specification, with the join as the current block |
| Generators.Generator.VisitBinary | src/compiler/lstf-codegenerator.c:693-845 | both operands are generated ahead of the operator; `!=` is the negation of `==` |
| Generators.Generator.VisitReturn | src/compiler/lstf-codegenerator.c:1446-1469 | a return ends its block, leads to the exit, and opens a block that cannot be reached |
| Generation.StmtsCompiled | src/compiler/lstf-codegenerator.c:1107-1161 | statements keep the graph typed, and every other block as it was |
| GeneratedFunction.FunctionCompiled | src/compiler/lstf-codegenerator.c:1051-1105 | the same of a whole function, all of whose blocks are added |
| Generators.Generator.AddInstruction | src/compiler/lstf-ir-basicblock.c:34-65 | an instruction is added to its block, and a branch sets the successors |
| Generators.WithInsnWellFormed | src/compiler/lstf-ir-basicblock.c:34-65 | a block stays well formed: the terminator is last, and the successors are the targets of the branch |
| Generators.Generator.AddBasicBlock | src/compiler/lstf-ir-function.c:83-91 | a block is added ahead of the exit, which stays last |
| Simplifiers.Simplifier.ComputePredecessors | src/compiler/lstf-ir-program.c:351-377 | the recorded predecessors are the inverse of the successors |
| Simplifiers.Simplifier.RemoveBlock | src/compiler/lstf-ir-program.c:136-195 | the predecessors of an empty block are led to its successor, and handed over to it |
| Simplifiers.Simplifier.RemoveEmptyBlocks | src/compiler/lstf-ir-program.c:113-198 | all empty blocks are removed, one by one |
| Simplify.RemovableExactly | src/compiler/lstf-ir-program.c:141-143 | the flow stays linked exactly if nothing leads to the removed block or it leads on |
| MissingReturns.JoinIsMissed | src/compiler/lstf-codegenerator.c:1091-1100 | for the body `if true { return 1; }`, generated as any other: the block behind the `if` is empty, is led to and leads nowhere, and when it is removed the condition still refers to it |
| MissingReturns.CannotBeSimplified | src/compiler/lstf-ir-program.c:136-195 | so its empty blocks cannot all be removed with the flow kept whole |
| SimplifyPaths.TraceLeaves | src/compiler/lstf-ir-program.c:136-195 | throughout the removals the predecessors stay the exact inverse of the successors, branches agree with them, and nothing refers to a removed block |
| SimplifyPaths.SameSequences | src/compiler/lstf-ir-program.c:113-198 | without a cycle of empty blocks, in any order of removal, the entry-to-exit sequences of non-empty blocks stay the same |
| SimplifyRuns.SameEnds | src/compiler/lstf-ir-program.c:113-198 | runs of the graph end as they did, from every block that is left |
| Drain.DrainAll | src/compiler/lstf-ir-program.c:113-198 | on generated graphs every empty block can be removed, and what is known of the stack stays true |
| PopPoints.StackPopPoints | src/compiler/lstf-ir-program.c:209-340 | the analysis ends on every graph, with the least solution of its equations and the pops of every block |
| PopPoints.Analysis.Iterate | src/compiler/lstf-ir-program.c:255-300 | comparing the sizes of the sets is enough to find the least solution |
| PopPoints.LeastOfSolutions | src/compiler/lstf-ir-program.c:255-300 | no solution reports less |
| PopPoints.LocalsAreAllocations | src/compiler/lstf-ir-program.c:225-253 | the locals that are counted for a block are its allocations with an initializer |
| PopTheorems.SoundExactly | src/compiler/lstf-ir-program.c:255-300 | what is reported is allocated on every path, exactly when nothing flows into the entry that the entry does not allocate |
| PopTheorems.SoundFunctions | src/compiler/lstf-ir-program.c:255-300 | always, when nothing leads to the entry |
| PopTheorems.UnsoundAtLoopedEntry | src/compiler/lstf-ir-program.c:255-300 | not on this graph, whose entry is led back to |
| PopTheorems.ExactWithoutCycles | src/compiler/lstf-ir-program.c:225-300 | without cycles exactly the locals are reported that are allocated on every path |
| LeastPops.ReportedExactly | src/compiler/lstf-ir-program.c:255-300 | on every graph, with cycles or without, exactly the locals are reported that cannot be avoided on a way back that ends at a block without predecessors or comes round |
| LeastPops.SoundExactlyOnGraph | src/compiler/lstf-ir-program.c:255-300 | soundness on the graph alone: exactly if each local that the entry does not allocate can be avoided on the way back from it |
| LeastPops.LevelExactly | src/compiler/lstf-ir-program.c:302-334 | balance on the graph alone, with cycles or without: exactly if, where control divides, the same locals are inevitable for both blocks |
| PopTheorems.HeightsAgreeExactly | src/compiler/lstf-ir-program.c:302-334 | the stack is as high as expected on every path exactly if the successors of every reached block expect the same locals |
| PopTheorems.LevelExactlyOnGraph | src/compiler/lstf-ir-program.c:302-334 | without cycles exactly if, where control divides, the same locals are allocated on all paths to either block |
| PopTheorems.NotCriticalIsBalanced | src/compiler/lstf-ir-program.c:302-334 | a block is balanced if, when it has two successors, neither has another predecessor |
| PopTheorems.NothingIsLeft | src/compiler/lstf-ir-program.c:302-334 | in a balanced function no local is left on the stack at the exit |
| TailConditionals.BodyIsUnbalanced | src/compiler/lstf-ir-program.c:302-334 | for the body above, generated and simplified, the stack is not as high as expected on some path, whatever the solution |
| TailConditionals.BodyIsGenerated | src/compiler/lstf-codegenerator.c:1107-1161 | the blocks that are generated for that body |
| TailConditionals.BodyCanBeSimplified | src/compiler/lstf-ir-program.c:113-198 | its two empty blocks can be removed |
| PopLimits.LoopsForget | src/compiler/lstf-ir-program.c:225-300 | in a loop nothing is reported but what the loop allocates |
| PopLimits.PoppedAheadOfLoop | src/compiler/lstf-ir-program.c:302-334 | so the block ahead of a loop pops its locals |
| PopLimits.UnbalancedAtCriticalEdge | src/compiler/lstf-ir-program.c:302-334 | a block that shares one successor with a block without its locals is not balanced |
| NoPops.NothingToPop | src/compiler/lstf-ir-program.c:302-334 | on typed graphs of the fragment there is nothing to pop but ahead of the exit, for any solution |
| Emitters.SerializeFunction | src/compiler/lstf-ir-program.c:895-916 | emission with lists of waiting jumps gives the code in which every jump has its label |
| Emitters.Emitter.SerializeBasicBlock | src/compiler/lstf-ir-program.c:403-893 | a block and what follows it are laid out as the specification says |
| Emitters.Emitter.SetLabel | src/compiler/lstf-ir-program.c:855-867 | the first code of a block becomes its label, and the jumps that wait for it are resolved |
| LayoutTheorems.EveryInstructionOnce | src/compiler/lstf-ir-program.c:413-414 | every instruction of a block that is laid out has code at exactly one place |
| LayoutTheorems.LaidOutIsReachable | src/compiler/lstf-ir-program.c:884-892 | exactly the blocks are laid out that the first block reaches |
| LayoutTheorems.JumpsAreResolved | src/compiler/lstf-ir-program.c:737-765 | every jump of a branch is resolved, to the first code of its block |
| LayoutTheorems.FlatFollowsGraph | src/compiler/lstf-ir-program.c:855-892 | every run of the graph is followed by a run of the flat code that visits the same instructions |
| LayoutTheorems.GraphFollowsFlat | src/compiler/lstf-ir-program.c:855-892 | and every run of the flat code by one of the graph; cycles are allowed |
| LayoutLimits.FallsExactly | src/compiler/lstf-ir-program.c:868-882 | the end of a block leads to its first successor exactly if that is not the block itself, and in a condition not placed before |
| LayoutLimits.SpinningIsLost | src/compiler/lstf-ir-program.c:868-882 | a block that falls through to itself does not get there |
| LayoutLimits.LoopingIsLost | src/compiler/lstf-ir-program.c:874-882 | nor does a condition whose taken block is placed already |
| FunctionCode.FunctionIsFramed | src/compiler/lstf-ir-program.c:434-853 | no assertion about frame offsets fails, and every temporary of the shape of the stack is at its offset |
| FunctionCode.CodeFollowsGraph | src/compiler/lstf-ir-program.c:403-893 | the stack code keeps step with the graph: the stack holds the temporaries at their offsets |
| FunctionCode.CodeComputesGraph | src/compiler/lstf-ir-program.c:403-893 | the code ends as the graph ends, with the same result, history or fault, if and only if the graph does |
| Pipeline.UnitIsCompilable | src/compiler/lstf-ir-program.c:342-390 | a typed graph meets every condition of the layout |
| Assembly.InstructionStands | src/compiler/lstf-ir-program.c:434-853 | where the code of an instruction is in the binary, there is what stands for it, with references as offsets |
| Assembly.StandsForOne | src/bytecode/lstf-bc-serialize.c:277-416 | what is in the binary stands for one instruction only |
| Assembly.BinaryImplements | src/compiler/lstf-ir-program.c:918-947 | the code that can be read from the binary is the code that was assembled, so it implements the body |
| Opcodes.OperatorBytes | src/vm/lstf-vm-opcodes.h:60-176 | at the offset of each operator is the byte that the machine lists for it, number by number |
| Opcodes.InstructionBytes | src/bytecode/lstf-bc-serialize.c:277-416 | the opcode and the operands of loads, stores, pops, parameters, returns and jumps: eight bytes, the highest first, which for a jump make up the offset of its target |
| Opcodes.KindBytes | src/bytecode/lstf-bc-serialize.c:277-416 | the same of constants, functions, calls, accesses and assertions |
| Opcodes.OtherBytes | src/bytecode/lstf-bc-serialize.c:277-416 | and of the instructions that the modelled compiler does not emit |
| Opcodes.ClosureBytes | src/bytecode/lstf-bc-serialize.c:345-360 | a closure: the number of variables, the address, and for each variable whether it is local and which it is |
| Bytecode.SizeIsLength | src/bytecode/lstf-bc-instruction.h:529-610 | the size counted for an instruction is the number of bytes it is written in |
| Bytecode.DecodesBack | src/bytecode/lstf-bc-serialize.c:277-416 | an instruction is read back, whatever follows it |
| Bytecode.StreamDecodesBack | src/bytecode/lstf-bc-serialize.c:277-416 | so is a list of instructions |
| Bytecode.UniquelyDecodable | src/bytecode/lstf-bc-serialize.c:277-416 | different lists are written differently |
| Binary.InstructionAtOffset | src/bytecode/lstf-bc-serialize.c:86-110 | each instruction is found at the offset computed for it, its references resolved |
| Binary.ReferencesLeadThere | src/bytecode/lstf-bc-serialize.c:273-417 | every reference is the offset of the instruction it stands for, and of no other |
| Binary.CodeSizeIsLength | src/bytecode/lstf-bc-serialize.c:86-110 | the declared size of the code is the number of bytes of it |
| Binary.CodeDecodesBack | src/bytecode/lstf-bc-serialize.c:273-417 | the code section is read back as the instructions of all functions |
| Binary.SameBytesSameCode | src/bytecode/lstf-bc-serialize.c:273-417 | programs with the same bytes have the same instructions |
| Binary.OffsetsDiffer | src/bytecode/lstf-bc-serialize.c:86-110 | no two instructions have the same offset |
| Serializer.Writer.ComputeCodeSizeAndOffsets | src/bytecode/lstf-bc-serialize.c:86-110 | the loops store every offset and return the size |
| Serializer.Writer.WriteInstruction | src/bytecode/lstf-bc-serialize.c:277-416 | what is written is the encoding of the resolved instruction |
| Serializer.Writer.SerializeToBinary | src/bytecode/lstf-bc-serialize.c:120-421 | writing succeeds exactly if no text is empty, and then writes the file of the specification; else it stops at the first empty text |
| Serializer.HeaderIsTrue | src/bytecode/lstf-bc-serialize.c:120-180 | the entry point in the header is where the first instruction of `main` is, and the sizes add up |
| Loader.LoadsWhatIsWritten | src/vm/lstf-vm-loader.c:60-330 | a file that has been written is loaded by the virtual machine: the entry point is the offset of the first instruction of `main`, the sections of the declared sizes are the data and the code that were written, and nothing is left over |
| Loader.NumberIsRead | src/io/inputstream.c:236-252 | eight bytes are read as the number they were written for, each byte at its place value |
| RoundTrip.PrintedIsParsed | src/compiler/lstf-parser.c:607-1262 | an expression printed with as few parentheses as possible is parsed back, and the cursor is left on the token behind it |
| RoundTrip.PrintIsInjective | src/compiler/lstf-parser.c:1372-1379 | expressions that are printed alike are the same |
| RoundTrip.NotAtLambda | src/compiler/lstf-parser.c:239-295 | no printed expression is mistaken for a lambda |
| RoundTrip.ReadsLevel | src/compiler/lstf-parser.c:707-1262 | the same at every level of precedence, with `in` non-associative, `??` to the right and the rest to the left |
| Precedence.BindsExactly | src/compiler/lstf-parser.c:709-1222 | how `a s b t c` is parsed, for every two operator tokens: the one of the tighter tier binds first, else the left one, but `??` binds to the right, and a second `in` ends the expression |
| Precedence.TiersAreComplete | src/compiler/lstf-parser.c:709-1222 | every token that goes between operands has its place in one of the twelve tiers, and no other token does |
| Precedence.PrefixBindsFirst | src/compiler/lstf-parser.c:675-705 | operators ahead of an operand bind tighter than all of these, on either side |
| Precedence.ConditionalBindsLast | src/compiler/lstf-parser.c:1224-1262 | the conditional binds less than all of them, on either side |
| Precedence.ConditionalsNest | src/compiler/lstf-parser.c:1224-1262 | and nests to the right |
| Precedence.PostfixBindsFirst | src/compiler/lstf-parser.c:608-673 | members, calls and indices bind from the left, and before an operator ahead |
| Precedence.LambdaExactly | src/compiler/lstf-parser.c:239-295 | a lambda is taken to start exactly at `async`, or at a parenthesis with names and commas behind it up to a name with a colon or up to a closing parenthesis with an arrow |
| Precedence.BreaksExactly | src/compiler/lstf-parser.c:608-673 | an error is reported right where an expression should start exactly at the tokens that start none |
| Precedence.BreaksThere | src/compiler/lstf-parser.c:590-605 | without its closing parenthesis, the name behind a period, or the colon of a conditional, an expression has its error at that place |
| Parsers.Parser.AtLambdaExpression | src/compiler/lstf-parser.c:239-295 | the look ahead decides as specified and sets the cursor back |
| Parsers.Parser.ParseExpression | src/compiler/lstf-parser.c:1372-1379 | the parser with its cursor gives the tree, or the error, of the specification, and leaves the cursor where that says |
| Parsers.Parser.ParseLeft | src/compiler/lstf-parser.c:707-755 | the loops over operands associate to the left |
| Parsers.Parser.ParsePostfix | src/compiler/lstf-parser.c:607-673 | so do member accesses, calls and indices |
| Parsers.Parser.Recover | src/compiler/lstf-parser.c:2553-2606 | skipping stops where the specification says |
| Recovery.StopsAtStart | src/compiler/lstf-parser.c:2553-2606 | skipping stops at the end, or outside of braces: where a statement may start, directly behind a semicolon, or directly behind the brace that closes what was skipped; and it passes by no such end, start or semicolon |
| Recovery.SkipsNothingExactly | src/compiler/lstf-parser.c:2553-2606 | nothing is skipped exactly at the end and where a statement may start, which the two rows below say token by token |
| Recovery.SkipsOtherTokens | src/compiler/lstf-parser.c:2566-2581 | token by token: skipping stays exactly at `let`, `await`, `for`, `async`, `fun`, `enum`, `interface` and `type`, at a name directly ahead of `=` or `===`, and at the end |
| Recovery.StopsAtTokens | src/compiler/lstf-parser.c:2564-2602 | past other tokens than semicolons and braces it goes on up to the first of these, and up to behind the first semicolon |
| Recovery.StuckExactly | src/compiler/lstf-parser.c:2545-2606 | a statement with an error leaves the cursor where it was exactly if it starts with `for` |
| Recovery.ForNeverEnds | src/compiler/lstf-parser.c:2537-2611 | a list of statements, nested or not, never gets past `for` |
| Recovery.EndsUnlessFor | src/compiler/lstf-parser.c:2537-2611 | every list ends, at the end of the file or at its closing brace, unless it gets to `for`, whichever of its statements have errors |
| Subtyping.Compose | src/compiler/lstf-interfacetype.c:47-89 | subtyping composes, through contravariant parameters, invariant elements and members of base interfaces |
| Subtyping.FunctionsCompose | src/compiler/lstf-functiontype.c:57-100 | for functions |
| Subtyping.InterfacesCompose | src/compiler/lstf-interfacetype.c:47-89 | for interfaces |
| Subtyping.PatternComposes | src/compiler/lstf-patterntype.c:34-66 | for patterns and objects |
| Subtyping.AnyComposes | src/compiler/lstf-anytype.c:32-39 | for `any` |
| Subtyping.TransitiveExactly | src/compiler/lstf-doubletype.c:34-49 | subtyping is transitive on the types over some scalars exactly if bool, int and double are not all among them |
| Subtyping.ThroughUnion | src/compiler/lstf-uniontype.c:45-70 | what takes a union takes what its options take |
| Subtyping.ThroughUnionExactly | src/compiler/lstf-anytype.c:32-39 | for every type without unions, `any` among them: exactly if it is not `any` or the option is of a value |
| Unions.TypeTakesUnion | src/compiler/lstf-interfacetype.c:80-86 | what a type without unions takes of a union: all its options, or it is `any`; `void`, enumerations and futures take none |
| Unions.UnionTakesUnion | src/compiler/lstf-uniontype.c:45-70 | what the comparison of two unions comes to: some option takes the whole other union, or each option of the other takes one of the own |
| Unions.ComparedExactly | src/compiler/lstf-uniontype.c:45-70 | unions of some types are compared as they ought to be if and only if the relation is symmetric on the types, and `any`, if it is one of them, takes all of them |
| Unions.UnionsAreReversed | src/compiler/lstf-uniontype.c:60-61 | two unions that are compared the wrong way round |
| Subtyping.AnyTakesVoidInUnion | src/compiler/lstf-anytype.c:32-39 | an input for which it is not: `any`, a union of `void`, and `void` |
| Reflexivity.TakesExactly | src/compiler/lstf-interfacetype.c:47-89 | an interface takes another exactly if each member that it or an ancestor declares takes the one found there, and its other ancestors take it |
| Reflexivity.TakesItselfExactly | src/compiler/lstf-interfacetype.c:47-89 | a type without unions takes itself exactly if each interface it is made of provides what it and its ancestors ask for |
| Reflexivity.OverridingBreaksReflexivity | src/compiler/lstf-typesymbol.c:63-86 | an interface that overrides a member with another type does not take itself |
| Reflexivity.DiamondBreaksReflexivity | src/compiler/lstf-typesymbol.c:70-86 | nor does one that inherits two members of one name |
| TypeComparison.Compare | src/compiler/lstf-datatype.c:82-98 | the comparison, with its loops, decides the subtype relation |
| TypeComparison.CompareFunctions | src/compiler/lstf-functiontype.c:57-100 | for functions, with the loop over both lists of parameters |
| TypeComparison.CompareInterface | src/compiler/lstf-interfacetype.c:47-89 | for interfaces, with the loop over members |
| TypeComparison.LookupMember | src/compiler/lstf-typesymbol.c:70-86 | a member is found in the type itself, or else in the first base that has it |
| TypeRules.FunctionsExactly | src/compiler/lstf-functiontype.c:57-100 | a function takes another exactly if there are as many parameters, its result takes the other's, and each parameter of the other takes its own |
| TypeRules.ParametersAreContravariant | src/compiler/lstf-functiontype.c:74-92 | so a function for numbers stands in for one for integers, and not the other way round |
| TypeRules.WrappersExactly | src/compiler/lstf-arraytype.c:36-55 | elements of arrays take each other, and futures go with what they are of |
| TypeRules.NumbersExactly | src/compiler/lstf-numbertype.c:36-55 | the nine pairs of scalars of which one takes the other |
| TypeRules.SimpleTypesExactly | src/compiler/lstf-anytype.c:32-39 | `any` takes all but `void` and futures; `void`, `null` and strings take themselves only |
| TypeRules.ObjectsExactly | src/compiler/lstf-patterntype.c:34-66 | objects take objects and interfaces; patterns take all but `any`, `void`, futures and functions |
| TypeRules.NamedTypesExactly | src/compiler/lstf-enumtype.c:36-52 | an enumeration takes itself only, and scalars take scalars only |
| TypeRules.InterfacesExactly | src/compiler/lstf-interfacetype.c:47-89 | an interface takes another exactly if each of its bases takes it and each of its members takes the one found there under its name |
| TypeRules.KindsAreKept | src/compiler/lstf-datatype.c:82-98 | arrays, functions, futures and interfaces take no types of another kind |
| TypeRules.LookupExactly | src/compiler/lstf-typesymbol.c:63-86 | the member found under a name is the first of that name among the own members, followed by those of base after base |
| TypeComparison.UnionType.AddOption | src/compiler/lstf-uniontype.c:139-152 | an option is added unless an equal one is there, so options stay different |
| StringLiterals.LiteralRoundTrip | src/compiler/lstf-scanner.c:686-755 | every text without NUL, escaped and quoted, is scanned as one token that spans the literal, and read back as the text |
| StringLiterals.Scan | src/compiler/lstf-scanner.c:381-408 | the scanner finds the end that the specification says |
| StringLiterals.GetString | src/compiler/lstf-scanner.c:686-755 | the loop that fills the buffer undoes the escapes |
| StringLiterals.ScannedIsComplete | src/compiler/lstf-scanner.c:381-408 | what is scanned as a literal has no escape cut off, so the loop stays within it |
| StringLiterals.ScannedExactly | src/compiler/lstf-scanner.c:381-408 | a literal ends at a place exactly if there stands the first quote of its kind that is not escaped, with no end of a line and no NUL before it |
| StringLiterals.LettersMean | src/compiler/lstf-scanner.c:715-737 | what each escape stands for, letter by letter |
| StringLiterals.EscapesExactly | src/compiler/lstf-scanner.c:715-737 | for every character: a backslash ahead of it is left out exactly if it is none of a, b, f, n, r and v |
| IntSets.IntSet.Set | src/data-structures/intset.h:45-54 | one member more, and padding stays clear |
| IntSets.IntSet.Unset | src/data-structures/intset.h:56-65 | one member less |
| IntSets.IntSet.Invert | src/data-structures/intset.h:128-132 | the complement |
| IntSets.IntSet.Union | src/data-structures/intset.h:110-114 | the union; clean sets stay clean |
| IntSets.IntSet.Minus | src/data-structures/intset.h:116-120 | the difference |
| IntSets.IntSet.Intersect | src/data-structures/intset.h:122-126 | the intersection, which is clean if one of the sets is |
| IntSets.IntSet.Count | src/data-structures/intset.h:77-101 | the number of members, and one more exactly if the bit behind the last is set |
| IntSets.IntSet.CleanIsCounted | src/data-structures/intset.h:77-101 | in clean sets that bit is clear, for every size |
| IntSets.CountIsCardinality | src/data-structures/intset.h:77-101 | counting bits word by word is counting the elements of a set |
| IntSets.PopCount | src/util.h:100-110 | the loop counts the bits of a word |
| PtrLists.List.Append | src/data-structures/ptr-list.c:42-66 | the ring gains a node at its tail |
| PtrLists.List.Prepend | src/data-structures/ptr-list.c:68-92 | or at its head |
| PtrLists.List.RemoveLink | src/data-structures/ptr-list.c:160-192 | or loses one, whose neighbours then know each other |
| PtrLists.List.Clear | src/data-structures/ptr-list.c:204-208 | removing the last node again and again empties the list |
| PtrLists.List.Find | src/data-structures/ptr-list.c:94-104 | the first node whose data are alike is found |
| PtrLists.List.Replace | src/data-structures/ptr-list.c:118-133 | its data, and nothing else, are replaced |
| PtrLists.List.IndexOf | src/data-structures/ptr-list.c:135-145 | the counter of the iterator is the index |
| PtrLists.List.LinksAreInverse | src/data-structures/ptr-list.c:42-66 | forward and back undo each other at every node of the ring |
| PtrLists.List.WalkSeesAll | src/data-structures/ptr-list.c:216-252 | a loop over an iterator sees the elements in order, each with its index, and then stops |
| HashMaps.HashMap.Insert | src/data-structures/ptr-hashmap.c:127-172 | a key that is there keeps its place and gets the value, a new one goes to the end; the table stays at most three quarters full, and every entry is in the bucket of its hash |
| HashMaps.HashMap.Get | src/data-structures/ptr-hashmap.c:174-191 | the search in one bucket finds what the map holds |
| HashMaps.HashMap.Delete | src/data-structures/ptr-hashmap.c:216-232 | the entry leaves its bucket and the list, and an empty bucket leaves the table |
| HashMaps.HashMap.Clear | src/data-structures/ptr-hashmap.c:234-241 | nothing is left, in any bucket |
| HashMaps.HashMap.ResizeToLength | src/data-structures/ptr-hashmap.c:81-125 | every entry is filed once, in the bucket of its hash for the new length |
| HashMaps.ServeRequests | src/data-structures/ptr-hashmap.c:127-241 | after any run of insertions, deletions and clearings the map holds, for every key, what the last request about it said |
| OrderedMaps.GetIsTheLastWord | src/data-structures/ptr-hashmap.c:127-191 | the same of the specification |
| OrderedMaps.OrderIsOfArrival | src/data-structures/ptr-hashmap.h:98-106 | keys are iterated in the order in which they came; overwriting keeps a place, deleting and inserting again moves it to the end |
| OrderedMaps.ThereIfArrived | src/data-structures/ptr-hashset.c:45-48 | a key is contained exactly if it came and was not deleted since |

## Left out

- Generator: captured variables, closures and upvalues, the coalescing operator, the conditional expression, array
  slices, objects, pattern matching and scheduled calls are not generated; `let` in a branch is generated but is outside
  of the fragment that is proved correct, because the stack is then not always balanced.
- Generation of bodies that end without a value: the implicit return at the end of a function is not modelled.
- Compile: the phases are those of one function; functions that are called are part of the semantics.
- Semantics: what a called function does to the machine beyond its operands and its result is not modelled; scheduling
  is not either.
- BodyIsUnbalanced: is one body; which bodies with locals in branches are balanced is stated on their graphs, not on
  their statements.
- BinaryImplements: is about instructions that their opcode tells apart; indirect and scheduled calls, whose operands
  are counted at the call, and patterns, which share an opcode with `==`, are not among them. More than 255
  parameters are not either: their number is written in one byte.
- SerializeToBinary: the debug information, the comments and interned data strings are not written; failures of the
  stream, and code of 2^64 bytes and more, are not modelled. The text of a JSON value is any string here; no value of
  the repository is printed as the empty one, on which writing stops.
- VisitBinary: the coalescing operator is left out.
- VisitReturn: a return without a value is left out.
- SerializeBasicBlock: phi, closure and upvalue instructions are left out.
- AtLambdaExpression: sets the cursor back always; the parser does not when the type of a parameter cannot be parsed. A
  parameter with a type is taken for that of a lambda here, without parsing the type.
- ParseExpression: arrays, objects, `await` and the bodies of lambdas are not parsed.
- ThroughUnionExactly: is about a union in the middle whose other types have no unions.
- PrintedIsParsed: arrays, objects, ellipsis, `await`, lambdas and data types are not parsed; the parser model stops
  where they start.
- EndsUnlessFor: what a statement without an error consumes is a parameter; only that it consumes something is
  assumed.
- TransitiveExactly: recursive interfaces, unresolved types and type parameters are not modelled, and unions only in
  the middle, as in ThroughUnionExactly.
- LiteralRoundTrip: verbatim strings and NUL in texts are not modelled.
- IntSet: the size of a set is not limited to 32 bits.
- HashMap: keeps its lists as sequences, not as the rings of PtrLists, so that the two refinements stay apart; likewise
  the analysis of pops works on sets rather than on IntSet. Reference counting of keys and values, allocation failures
  and the use of floating point in the load test, which is exact for the sizes there are, are not modelled.
- HashSet: is the map without values; its functions are not modelled one by one.
- PtrLists: freed nodes keep their data; reference counting is not modelled.
- NumbersExactly: overflow, division by zero and shifts by 64 and more, which C leaves undefined, and floating-point
  numbers are left open; of the machine only what its instructions do to one stack frame and to values is modelled.
- WrongTypesFault: the remainder of a number and something else is read from the wrong part of a value; that is left
  open.
- LoadsWhatIsWritten: a program with debug information is not loaded by the model; allocation failures are not
  modelled.
- BindsExactly: is about names as operands; operands of any form are in PrintedIsParsed.
- The scheduler of the virtual machine, the language server, input and output, error reporting, file loading and the debugger
  extensions.
