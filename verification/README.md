# Curica in Dafny

Curica is a small JavaScript runtime in C: a one-pass register compiler, a bytecode
machine, a generational heap, a thread pool with an event loop, a key-value log, and
text codecs. This project models its hard parts and proves what they are for. To check
the whole project: `dafny verify dfyconfig.toml`.

| files | what they hold |
|---|---|
| `Syntax`, `SourceSemantics`, `Bytecode`, `Machine`, `CodeGen`, `Scoping`, `Simulation`, `Program`, `Operands`, `Emitter` | the compiler: source semantics, machine, emitted code, semantic preservation, operand bounds, and the emitter that back-patches |
| `Lexical`, `Closures` | captured variables, their addresses, and the environments of running code |
| `ParserLadder`, `ProgramFile` | the expression parser and the file format of compiled programs |
| `OldSpace`, `Heap`, `Marking`, `MinorGc`, `HashSet` | next-fit allocator and sweep, marking, copying collection, the Set object |
| `ThreadPool`, `Timers`, `Promises` | the worker pool, the timers and the promises |
| `KvStore`, `Json`, `TypeStripper`, `Base64` | the key-value log and the text codecs |
| `Options`, `Decimals`, `Division` | what several of them share |

## How the models are made

- Code that changes state is a class or a method proved against a specification function
  (`Emitter` against `CodeGen`, `Resolver` against `Resolve`, `Parser` against `Parse`,
  `OldSpace.Sweep` against `Swept`, `MarkValue` against `Mark`, `StripInPlace` against
  `Strip`, and so on); the properties are proved of the specification.
- **Compiler.** The fragment is literals, register variables and globals, binary, unary
  and short-circuit operators, ternary, sequence, assignment and `++`/`--` on
  identifiers, blocks, `if`, `while`, `do`-`while`, `throw` and `try`/`catch`/`finally`,
  nested without bound. Operators and truthiness are parameters (`Ops`), operators may
  throw; `++` and `--` are `OP_ADD` and `OP_SUB` with 1, as emitted. `var` and `let` are
  both scoped to their block, as the compiler scopes them. The source semantics is
  indexed by fuel, and the theorems hold for every fuel, so divergence is covered.
  Scopes are threaded as values. A program is in the fragment (`Scoped`) if names are
  used after their declaration, declarations stand directly in blocks, and finalizers
  declare nothing: the finalizer is compiled twice over one scope object.
- **Machine.** The instructions are those of src/bytecode.h with the meaning src/vm.c
  gives them. The comment at src/bytecode.h:73 says that `CATCH_BEGIN` pops the handler;
  src/vm.c:2676-2726 pops it when the error is thrown, and the model follows src/vm.c.
- **Heap.** Addresses are byte addresses; old-space headers are a map from address to
  header with a ghost walk over it; payloads are words that are raw or pointers. A
  failed allocation during a minor collection ends the program in the source; `Collect`
  reports it, and the contracts say when it can happen. What a collection asks of the
  heap (`Ready`) is asked of reachable blocks only, and holds again when it ends.
- **Threads.** A step is one critical section or one callback, so the runs of the step
  system are all interleavings of the workers, the submitters and the main thread. The
  condition variable has spurious wake-ups.
- Sizes and counters are unbounded; the widths that matter are explicit: instruction
  fields, the 32-bit word of the base64 decoder, the 16-bit range of `LOAD_INT`, the
  32-bit fields of the program file.

## Where the code does not meet the property one expects

Each of these is modelled as the code has it, with the exact condition, a witness, or
both.

- The sweep does not reset the allocator's cursor. `SweepExact` says when the cursor is
  still on a block: exactly if its block is not merged into a free one before it.
  `StaleCursor` is a run after which it is not, and `OverlappingBlocks` goes on from it
  to two blocks in use, one inside the other.
- The minor collection does not trace some words (the name of an error, symbols, regular
  expressions, buffers, half-float arrays, `user_data`). `DanglingIff`: a block is left
  with a pointer into the nursery exactly if such a word held one; `SlotsExact` lists the
  words. `DanglingName` is a
  whole collection that leaves the name of an error behind.
- The write barrier stops recording when its table of 16384 entries is full.
  `StoreBarred` says exactly when a store, to any traced word, keeps the references into
  the nursery remembered, `BarrierIff` when a store followed by the barrier does: if a
  live block that is given a young word is remembered already or the table has room.
  `FullTable` is a heap where it does not.
- `array_push` and `object_set` call the barrier for what they store, not for the larger
  data block that they make. `GrowthBarred`: when an old container grows, all references
  stay remembered exactly if the container is remembered afterwards, or the new block is
  old and holds no reference into the nursery. So an old array that is not remembered
  and grows into the nursery to take a number has elements that the next minor collection
  does not know of: `GrowthForgotten`.
- Both collections filter the table of interned strings before they visit the roots of
  the thread pool, the sockets and the event loop. A string that only these reach
  survives but leaves the table; the contracts say which strings stay. `ForgottenString`
  is a whole collection that loses one.
- Timers that expire at the same time fire in the reverse order of their setting, as far
  as they wait together. `NextToFire` says what fires next in every run, `TwoReversed` is
  a run.
- `undefined` is the empty slot of a Set. `HashSet.Add` leaves the set well formed
  exactly if the value is another one.
- Parameter defaults run before the function makes its environment, but are addressed as
  if it had. `AddressIff` gives the exact condition, `AddressAtRunTime` proves it of all
  runs, `DefaultIsBypassed` is a program.
- The scan of a log record skips white space that belongs to the key or value.
  `RestoredIff`: a record, of a value or of a deletion, has its effect exactly if its
  body does not begin with white space.
- Recovery leaves a broken end in the log. `AppendIff`: for any file, every record
  appended to it is replayed if and only if the replay reads the file to its end.
  `AppendAfterCut`: for a log cut off at any byte, if and only if the cut is at the end
  of a record, where the newline may be missing, and the blank before it if the record
  carries nothing. `LostAfterCutOff` is a family of cases. Elsewhere a broken end takes
  bytes of what follows it, and later records may or may not be found again.
- The JSON parser does not always come to an end. `TakesNothingIff`: exactly where no
  value begins it returns without taking a character. `HangsIff`, for every text: it goes
  round for ever exactly if some list comes to a place where an element should begin and
  no value does. `OverrunsIff`, for every text: it steps over the end exactly if some
  object comes to a place with only white space behind it. `Endless` has examples.

## Model

| member | source | states |
|---|---|---|
| Bytecode.DecodeEncode | src/bytecode.h:100-123 | the decoding macros undo the encoders, for every instruction whose operands fit their bit fields |
| Bytecode.DecodeEncodeAll | src/bytecode.h:100-123 | the same for whole programs |
| Bytecode.OpcodePosition | src/bytecode.h:7-74 | the opcode of every encoded instruction is the position of its name in the list of instructions |
| Bytecode.WordLayout | src/bytecode.h:100-123 | the opcode is the lowest byte of the word, the operands follow byte by byte, a wide one takes the upper two |
| Machine.Vm.StillGoing | src/vm.c:2421-2426 | a machine that runs after k steps was running after every fewer |
| Scoping.Keeps | src/compiler.c:2636-2642 | compiling any node of the fragment gives back every register it takes and leaves all symbols where they are |
| Scoping.KeepsStmt | src/compiler.c:3113-3141 | after a statement of a block the next free register is above every symbol of the block, temporaries are dropped |
| Simulation.Simulate | src/compiler.c:2706-3061 | for every node, context, store and fuel: the emitted code run from its first instruction ends behind its last one with the value in the target register, or raises the exception the source raises, or is still running after as many steps as the fuel; variables are in their registers, globals agree, handlers are as before, and below the entry `next_reg` only the target and variables have changed |
| Simulation.SimBinary | src/compiler.c:2949-2983 | the same for binary operators, left operand first |
| Simulation.SimLogical | src/compiler.c:2895-2948 | the same for `&&`, <code>&#124;&#124;</code> and `??`: the right operand runs exactly when the left one does not decide |
| SourceSemantics.LogicalMeaning | src/compiler.c:2895-2948 | which operand `&&`, <code>&#124;&#124;</code> and `??` yield; `??` goes on exactly for `null` and `undefined` |
| Simulation.SimUnary | src/compiler.c:2984-3029 | the same for unary operators |
| Simulation.SimPrefix | src/compiler.c:2984-3029 | the same for prefix `++` and `--`: the new value is stored and yielded |
| Simulation.SimPostfix | src/compiler.c:3030-3047 | the same for postfix `++` and `--`: the new value is stored, the old one yielded |
| SourceSemantics.StepIsAssignment | src/compiler.c:2984-3047 | `++x` and `--x` mean `x += 1` and `x -= 1`; in postfix position the store and the errors are the same and the old value is yielded |
| Simulation.SimAssign | src/compiler.c:2834-2894 | the same for assignment |
| Simulation.SimOpAssign | src/compiler.c:2834-2894 | the same for compound assignment, which reads its target first |
| Simulation.SimLogicAssign | src/compiler.c:2834-2894 | the same for `&&=`, <code>&#124;&#124;=</code> and `??=`: the store happens exactly when the old value does not decide |
| Simulation.SimTernary | src/compiler.c:3048-3061 | the same for `?:` |
| Simulation.SimSequence | src/compiler.c:3823-3830 | the same for the comma operator |
| Simulation.SimDecl | src/compiler.c:2814-2833 | a declaration initialises its own symbol, in a register no other symbol has |
| Simulation.SimBlock | src/compiler.c:3113-3184 | a block runs its statements in a fresh scope and leaves the outer variables' registers to the outer variables |
| Simulation.SimIf | src/compiler.c:3185-3205 | the same for `if` with and without `else` |
| Simulation.SimWhile | src/compiler.c:3206-3222 | the same for `while`, any number of rounds, divergence included |
| Simulation.SimDoWhile | src/compiler.c:3223-3235 | the same for `do`-`while` |
| Simulation.SimThrow | src/compiler.c:3542-3549 | `throw` raises the value of its operand |
| Simulation.SimGuarded | src/compiler.c:3481-3512 | the protected block and its catch clause: what the block throws goes to this clause, with the value in the parameter; otherwise the clause does not run; the handler is popped either way |
| Simulation.SimFinally | src/compiler.c:3474-3532 | `finally` runs once on every path, after the block and the clause, and what is uncaught is thrown again after it |
| Simulation.SimRethrow | src/compiler.c:3513-3525 | on the exceptional path the finalizer runs with the exception kept, and the exception goes on, or the finalizer's own |
| Simulation.SimNormalExit | src/compiler.c:3526-3531 | on the normal path the second copy of the finalizer runs |
| Program.ProgramCorrect | src/compiler.c:3883-3903 | compiler correctness: for every program of the fragment, all operators, globals, register contents and fuel, the machine returns or throws what the source does, with the same globals, or is still running |
| Program.HaltsIffTerminates | src/compiler.c:3883-3903 | the machine halts exactly if the source terminates |
| Program.HaltsAsSource | src/compiler.c:3883-3903 | whenever the machine has halted, it has the result of the source; it never gets stuck |
| Operands.NodeFits | src/compiler.c:2706-3061 | all operands of a fragment lie below the register count, the pool size and the code length it reports |
| Operands.ProgramDecodes | src/compiler.c:3883-3903 | all operands of a program are below `register_count`; below 256 registers and the 16-bit limits the encoded words decode to the emitted code |
| Operands.MachineCodeCorrect | src/compiler.c:3883-3903 | end to end: within those limits the machine fed with the encoded words ends as the source does |
| Emitting.Emitter.EmitInstruction | src/compiler.c:2631-2635 | appends one word |
| Emitting.Emitter.Patch | src/compiler.c:2909-2912 | overwrites one word: exactly the reserved instruction is replaced |
| Emitting.Emitter.AllocRegister | src/compiler.c:2636-2641 | takes the next register and raises the maximum |
| Emitting.Emitter.FreeRegisters | src/compiler.c:2642-2642 | gives back registers |
| Emitting.Emitter.AddConstant | src/compiler.c:2597-2630 | the loop finds the constant's first position in the pool, or appends it |
| Emitting.Emitter.CompileNode | src/compiler.c:2706-3061 | for every node, the emitter that appends, takes registers and patches writes exactly the code of the specification and leaves its state |
| Emitting.Emitter.EmitLit | src/compiler.c:2716-2739 | literals |
| Emitting.Emitter.EmitIdent | src/compiler.c:2755-2769 | identifiers |
| Emitting.Emitter.EmitStore | src/compiler.c:2664-2674 | stores to identifiers |
| Emitting.Emitter.EmitLogical | src/compiler.c:2895-2948 | short-circuit operators, with their jumps patched |
| Emitting.Emitter.EmitLogicAssign | src/compiler.c:2834-2894 | logical assignment, with its jumps patched |
| Emitting.Emitter.EmitIf | src/compiler.c:3185-3205 | `if`, with its jumps patched |
| Emitting.Emitter.EmitWhile | src/compiler.c:3206-3222 | `while`, with its jumps patched |
| Emitting.Emitter.EmitDoWhile | src/compiler.c:3223-3235 | `do`-`while` |
| Emitting.Emitter.EmitBlock | src/compiler.c:3113-3184 | blocks, statement by statement |
| Emitting.Emitter.FindBoundary | src/compiler.c:3132-3141 | the loop finds the first register above all symbols of the scope |
| Emitting.Emitter.EmitTryFinally | src/compiler.c:3474-3532 | `try`, with its handlers and jumps patched and the finalizer compiled twice |
| Emitting.Emitter.CompileSource | src/compiler.c:3876-3905 | the entry point writes exactly the words, pool and register count of `CompileProgram`, of which the program theorems are proved |
| LexicalAddressing.ProgramSlots | src/compiler.c:2402-2421 | for every program: only functions have environments, and the captured symbols of each fill the slots 0 to `num_captured_vars` - 1, one each |
| LexicalAddressing.CapturedIffUsedAcross | src/compiler.c:2376-2421 | for every program that declares before it uses: a symbol is captured exactly if some use finds it across a function boundary |
| LexicalAddressing.LookupStable | src/compiler.c:2376-2385 | a name declared before its use means the same symbol when all scopes are complete |
| LexicalAddressing.AddressIff | src/compiler.c:2387-2397 | for every use of a captured symbol: going up the emitted number of environments and taking the emitted slot gives that symbol's slot exactly if no environment on the way is still to be made |
| LexicalAddressing.StaticDepth | src/compiler.c:2387-2397 | the number counted at code generation is the position of the symbol's function among the functions with environments |
| LexicalAddressing.UncapturedIsLocal | src/compiler.c:2755-2769 | a symbol left in a register is used only by the function that declares it |
| LexicalAddressing.DefaultIsBypassed | src/compiler.c:3568-3603 | a program whose parameter default is addressed one environment too far |
| Closures.InvStep | src/vm.c:2250-2523 | creating closures, calls, `NEW_ENV`, stores and returns, of any activation at any time, keep every frame and closure on the environments of the activations around it |
| Closures.ChainAtRunTime | src/vm.c:2485-2523 | in every run of every program, the environments of a running activation are those of the static chain of its code |
| Closures.AddressAtRunTime | src/vm.c:1832-1863 | in every run of every program: going up the emitted number of environments leads to the environment made by the activation around that declares the symbol, recursion and closures included, with the slot inside it, if and only if the use is not bypassed |
| LexicalAddressing.Resolver.ResolveAll | src/compiler.c:2399-2530 | the resolver, which updates scopes in place, computes `Resolve` |
| LexicalAddressing.Resolver.Lookup | src/compiler.c:2376-2385 | the loop up the scopes computes `LookupResolve` |
| LexicalAddressing.Resolver.LookupForCode | src/compiler.c:2387-2397 | the loop up the scopes computes `LookupCodegen` |
| LexicalAddressing.Resolver.EnclosingFunction | src/compiler.c:2370-2374 | the loop finds the enclosing function scope |
| LexicalAddressing.Resolver.DeclareName | src/compiler.c:2358-2368 | a symbol is added unless it is there |
| LexicalAddressing.Resolver.UseName | src/compiler.c:2402-2421 | a use across a function boundary captures its symbol, once |
| ParserLadder.ParsePrint | src/compiler.c:1451-1701 | for every tree: parsing its minimally parenthesised tokens, followed by anything that cannot continue an expression, gives the tree and exactly the rest |
| ParserLadder.PrintTrip | src/compiler.c:1506-1659 | the same at every level of the ladder: left-associative except `**`, `?:` and assignment |
| ParserLadder.Precedence | src/compiler.c:1506-1636 | a chain of any operands and binary operators is grouped as the ordered list of operator classes says: divided at the last of the loosest operators first, so that classes associate to the left, and powers to the right |
| ParserLadder.TwoOperators | src/compiler.c:1506-1636 | of two operators the tighter one is inside, of one class the first, of two powers the second |
| ParserLadder.OtherShapes | src/compiler.c:1451-1701 | what the ternary, assignment, comma and postfix tokens build |
| ParserLadder.PrefixShapes | src/compiler.c:1463-1503 | what each prefix token builds |
| ParserLadder.Parse | src/compiler.c:1463-1701 | every level ends and takes at least one token |
| ParserLadder.Parser.Parsed | src/compiler.c:1463-1518 | the recursive parser with its cursor computes `Parse` |
| ParserLadder.Parser.ParsedOperators | src/compiler.c:1520-1636 | the loop of a left-associative level |
| ParserLadder.Parser.ParsedTail | src/compiler.c:1638-1682 | `**`, ternary and assignment after their first operand |
| ParserLadder.Parser.ParsedItems | src/compiler.c:1684-1701 | the loop of the comma operator |
| ParserLadder.Parser.ParsedPrimary | src/compiler.c:935-1026 | atoms and parentheses |
| ProgramFile.RoundTrip | src/compiler.c:3939-3993 | reading a written program gives it back with nothing left over, except that no function is asynchronous |
| ProgramFile.SizeExact | src/compiler.c:3940-3948 | the writer fills exactly the size computed before |
| ProgramFile.HeaderLayout | src/compiler.c:3936-3962 | the file begins with the letters CBC and a zero, the version, and the three counts, lowest bytes first |
| ProgramFile.CodeLayout | src/compiler.c:3939-3962 | every instruction is at its place behind the constants |
| ProgramFile.FunctionLayout | src/compiler.c:3939-3962 | every function is at its place behind the instructions, offset, registers and parameters in this order |
| ProgramFile.Write | src/compiler.c:3939-3962 | the writer's loops produce `Serialize` |
| ProgramFile.ReadProgram | src/compiler.c:3964-3993 | the reader's loops compute `Deserialize`; another magic number or version is refused |
| OldSpaces.OldSpace.constructor | src/alloc.c:66-78 | one free block tiles the space, the counter is exact |
| OldSpaces.OldSpace.Alloc | src/alloc.c:128-171 | with the cursor on a block: fails exactly if no free block fits; otherwise hands out the first fitting block from the cursor on, around the end; ends; keeps the tiling, the cursor on a block, and the counter equal to the free bytes plus the remainders not split off so far |
| OldSpaces.OldSpace.Take | src/alloc.c:141-163 | splitting or handing out a whole block |
| OldSpaces.ClaimTiled | src/alloc.c:142-152 | splitting keeps the blocks tiling the space and every other block in place |
| OldSpaces.ClaimAllocated | src/alloc.c:142-163 | exactly one more block is allocated, and it overlaps no live one |
| OldSpaces.ClaimFreeBytes | src/alloc.c:142-153 | the free bytes fall by what was asked for plus the remainder not split off |
| OldSpaces.OldSpace.Sweep | src/alloc.c:1739-1770 | the loop computes `Swept`; the counter grows by the bytes of the blocks freed and stays equal to the free bytes plus the old remainders |
| OldSpaces.SweepExact | src/alloc.c:1739-1770 | the sweep frees exactly the unmarked blocks, keeps the others' addresses and sizes, clears all marks, leaves no two free neighbours; the cursor is still on a block exactly if its block was not merged |
| OldSpaces.StaleCursor | src/alloc.c:126-171 | a run after which the cursor is inside a merged free block |
| OldSpaces.OldSpace.TakeAtCursor | src/alloc.c:128-165 | the search when the block at the cursor fits, whatever the cursor points to |
| OldSpaces.OverlappingBlocks | src/alloc.c:126-171 | a run after which two blocks in use overlap |
| Marking.MarkExact | src/alloc.c:1256-1382 | from clear marks, marking marks exactly the blocks that the program can get at through the words it reads, on any graph |
| Marking.FollowedExact | src/alloc.h:53-175 | the marker follows a word of a block exactly if it is one through which the program gets at other blocks: the values, data blocks and references of its structure, all elements, all variables of an environment |
| Marking.MarkSound | src/alloc.c:1256-1382 | nothing else is marked |
| Marking.MarkComplete | src/alloc.c:1256-1382 | no edge leads from a marked to an unmarked block |
| Marking.MajorCollector.MarkValue | src/alloc.c:1256-1382 | the recursive marker, with the marks in the headers, computes `Mark` and ends on cycles |
| Marking.MajorCollector.ClearInterned | src/alloc.c:1699-1709 | the interned strings that stay are the marked ones, in order |
| Marking.MajorCollector.Collect | src/alloc.c:1649-1770 | after a full collection the heap is exactly what the program can get at from the roots, unchanged and at the same addresses, every block that a readable word of a survivor refers to survives, marks are clear, free blocks are merged, and the interned strings are those the early roots reach |
| MinorCollection.MinorCollector.Collect | src/alloc.c:1539-1641 | succeeds if one free block is as large as all live nursery blocks together, and fails only if no free block holds some live nursery block. On success: exactly the reachable nursery blocks are moved, each to a place of its own; roots are redirected; every path of traced words leads to the moved end of the same path; no root and no traced word of a reachable or moved block points into the nursery; interned strings that moved early are redirected to where they moved, other nursery strings go, and no entry points into the nursery; every block that the program can get at has every readable word redirected and every other word as it was, but for the words that the traversal overlooks; the precondition holds again |
| MinorCollection.FinishedPreserves | src/alloc.c:1539-1641 | what `Collect` says of moves, paths and words, of any finished traversal, whatever unreachable blocks hold |
| MinorCollection.ReadyAgain | src/alloc.c:1539-1641 | after the traversal every reachable block refers to old blocks only, data blocks have their types, and nothing needs remembering |
| MinorCollection.FollowFix | src/alloc.c:1404-1537 | redirection commutes with following any path, sharing and cycles included |
| MinorCollection.CopiesExactly | src/alloc.c:1404-1428 | a nursery block is copied exactly if it can be reached |
| MinorCollection.AllClean | src/alloc.c:1430-1537 | no traced word of a reachable or copied block is left pointing into the nursery |
| MinorCollection.SlotsExact | src/alloc.h:53-175 | the traversal updates a word exactly if the program can read it and it is not the data of a half-float array, the text of a symbol or regular expression, the name of an error, or the slab of a buffer |
| MinorCollection.DataSlotExact | src/alloc.h:59-154 | which word refers to the block with the elements or properties |
| MinorCollection.SeenIff | src/alloc.c:1404-1537 | what the traversal wants is what the program can get at, block by block, from the roots |
| MinorCollection.FinishedIntact | src/alloc.c:1539-1641 | exactly the nursery blocks that the program can get at have moved, and all blocks that it can get at have their contents |
| MinorCollection.DanglingIff | src/alloc.c:1430-1537 | a block is left with a nursery pointer exactly if an untraced word of it had one |
| MinorCollection.DanglingName | src/alloc.c:1521-1534 | a whole collection after which an error in the old space has its name at an address of the emptied nursery |
| MinorCollection.MinorCollector.CopyValue | src/alloc.c:1404-1428 | the word is redirected, everything it leads to is copied and traced, and the recursion ends: the unforwarded blocks become fewer; it succeeds if there is room for all live blocks, leaving room for the rest, and fails only if no free block holds some live one |
| MinorCollection.MinorCollector.Promote | src/alloc.c:1413-1424 | the copy and the forwarding pointer; fails exactly if no free block is large enough, and then leaves the old space as it is |
| MinorCollection.MinorCollector.Trace | src/alloc.c:1430-1537 | all traced words of the block and of its data block are redirected; success and failure as for `CopyValue` |
| MinorCollection.MinorCollector.CopyAll | src/alloc.c:1542-1589 | the loops over the roots: every word redirected, in order; success and failure as for `CopyValue` |
| MinorCollection.MinorCollector.TraceAll | src/alloc.c:1591-1600 | the loop over the remembered blocks: each is traced with its data block; success and failure as for `CopyValue` |
| MinorCollection.RoomLeft | src/alloc.c:128-171 | if one free block is as large as all blocks still to be copied, the next copy finds room, and wherever it goes the same holds of the others |
| MinorCollection.MinorCollector.UpdateInterned | src/alloc.c:1602-1616 | the loop over the interned strings |
| MinorCollection.MinorCollector.WriteBarrier | src/alloc.c:1773-1790 | records an old block that is given a young value, once, while the table has room |
| MinorCollection.BarrierIff | src/alloc.c:1773-1790 | a store of a live word followed by the barrier keeps all references remembered if and only if a live block given a young word is remembered already or the table has room, and a data block given up is covered |
| MinorCollection.FullTable | src/alloc.c:1784-1787 | a heap with the table full where a reference is forgotten |
| MinorCollection.ForgottenString | src/alloc.c:1602-1641 | a whole collection after which a string that lives has left the table of interned strings |
| MinorCollection.StoreBarred | src/alloc.c:1773-1790 | a store to any traced word of an old block keeps all references from live old blocks into the nursery remembered if and only if the block is remembered when it gets a young word, a data block it gives up is clean or remembered otherwise or dead, and so is every old block that only the store made live |
| MinorCollection.StoreLive | src/alloc.c:1773-1790 | storing a live word makes no other block live, so that the last condition drops out |
| MinorCollection.GrowthBarred | src/alloc.c:310-333 | growing an old container keeps all references remembered if and only if the container is remembered afterwards, or the new data block is old and without nursery references |
| MinorCollection.GrowthForgotten | src/alloc.c:310-333 | an old array for which it fails |
| HashSets.HashSet.constructor | src/alloc.c:1803-1812 | an empty set |
| HashSets.HashSet.Probe | src/alloc.c:1815-1824 | with an empty slot somewhere, the probe ends at the value or at the first empty slot on its way |
| HashSets.HashSet.AddInternal | src/alloc.c:1814-1826 | puts the value where its probe ends, unless it is there |
| HashSets.HashSet.Resize | src/alloc.c:1828-1844 | the same set in a table of twice the size |
| HashSets.HashSet.Add | src/alloc.c:1846-1857 | adds to the mathematical set and says whether it was new; the count is the cardinality and a slot stays empty exactly if the value is not `undefined` |
| HashSets.HashSet.Has | src/alloc.c:1859-1871 | membership in the mathematical set |
| HashSets.HashSet.Delete | src/alloc.c:1873-1898 | removes from the mathematical set and keeps the table well formed |
| HashSets.HashSet.Rehash | src/alloc.c:1885-1892 | re-hashing the rest of the cluster, around the end of the table, ends and restores the probing invariant |
| HashSets.RehashOne | src/alloc.c:1886-1891 | each re-hashed element stays within the part of the cluster already done |
| HashSets.Absent | src/alloc.c:1859-1871 | a probe that meets an empty slot was for something that is not in the set |
| HashSets.Inserted | src/alloc.c:1814-1826 | inserting where the probe ends keeps the probing invariant |
| ThreadPool.StepPlaces | src/thread_pool.c:58-180 | no step of any thread loses or duplicates an item, or a call of its callbacks |
| ThreadPool.InvStep | src/thread_pool.c:58-202 | every step keeps: each item in exactly one place, dequeued in the order queued, pending count exact, workers exit only after shutdown, and queued work of an active pool has a worker awake |
| ThreadPool.AlwaysInv | src/thread_pool.c:58-202 | this holds in every interleaving |
| ThreadPool.LoopEndsWhenAllFinished | src/event_loop.c:171-173 | when the event loop finds nothing to do, every item has been worked on once, called back once, and is finished |
| ThreadPool.ShutdownDrains | src/thread_pool.c:189-199 | when all workers have exited, every item that was taken has been worked on once, and the queue is empty if and only if nothing was queued after the last worker exited |
| Timers.InsertKeeps | src/event_loop.c:59-70 | insertion keeps the list sorted and adds exactly the timer |
| Timers.InvStep | src/event_loop.c:51-71 | every step keeps the list sorted, every timer pending or fired once, none early, and the fired expiry times nondecreasing |
| Timers.TimersInOrder | src/event_loop.c:229-237 | this holds over whole runs in which timers are set at any time |
| Timers.NextToFire | src/event_loop.c:59-70 | in every run, what fires next is the first to expire, and of those that expire at the same time the one that was set last |
| Timers.TwoReversed | src/event_loop.c:59-70 | a run in which two timers of the same length fire the other way round |
| Timers.EventLoop.SetTimeout | src/event_loop.c:51-71 | the walk to the timer's place computes `Insert` |
| Timers.EventLoop.TakeExpired | src/event_loop.c:231-236 | the first timer is taken exactly if it has expired; if none is taken none has expired |
| Promises.Promise.React | src/builtins.c:1971-2003 | `then`: the queue is, in order of registration, the handlers of the settled kind with the one result, and nothing before settlement |
| Promises.Promise.SettleWith | src/builtins.c:2011-2061 | resolve and reject: the first settlement counts, later ones change nothing, and each waiting handler of its kind is queued once, in order |
| Promises.Promise.Enqueue | src/builtins.c:2022-2033 | the loop over the waiting callbacks |
| KvStore.ReplayLog | src/kv_store.c:90-114 | replaying the log of any run of operations rebuilds the index exactly |
| KvStore.ReplayCutOff | src/kv_store.c:90-114 | replaying the log cut off after any byte gives the index after some prefix of the operations |
| Decimals.DecimalWorth | src/kv_store.c:141 | a printed length is worth the length in decimal digits |
| KvStore.RestoredIff | src/kv_store.c:97-108 | a record has its effect on every index if and only if its body does not begin with white space, for values and deletions |
| KvStore.AppendIff | src/kv_store.c:90-114 | for any file: every fitting record appended to it has its effect if and only if the replay reads the file to its end |
| KvStore.AppendAfterCut | src/kv_store.c:90-114 | for a log cut off after any byte: the same if and only if the cut is at the end of a record, up to its newline or, if the record carries nothing, its last blank |
| KvStore.CutReads | src/kv_store.c:90-114 | the replay reads a cut-off log to its end exactly at those positions |
| KvStore.LostAfterCutOff | src/kv_store.c:93-98 | a record appended to a lone type byte is not replayed |
| KvStore.CompactedRun | src/kv_store.c:213-224 | the compacted operations give every key what the index has for it |
| KvStore.GetSet | src/kv_store.c:35-68 | reading after writing, for the key and for all others |
| KvStore.Store.constructor | src/kv_store.c:90-117 | opening any file gives the index that a replay gives; file and index are in step exactly if the replay reads it to its end |
| KvStore.Store.Load | src/kv_store.c:90-114 | the replay loop computes `Replay` |
| KvStore.Store.SetInMemory | src/kv_store.c:35-57 | the index after setting or deleting a key |
| KvStore.Store.Get | src/kv_store.c:59-68 | what the index has, which is what a replay of the file would have while the two are in step |
| KvStore.Store.Write | src/kv_store.c:141-147 | for every key and value: set and delete append a record and update the index; a record that fits keeps file and index in step |
| KvStore.Store.Compact | src/kv_store.c:213-227 | the new file has one record for every key with a value; if these fit, file and index are in step, whatever the old file was |
| KvStore.CompactedReplay | src/kv_store.c:213-227 | a replay of the compacted file reads all of it and gives every key what the index has for it |
| Json.RoundTrip | src/builtins.c:619-751 | for every nested value with plain texts and distinct keys: parsing the printed text with any suffix that does not continue a number gives the value, `undefined` as `null`, and stops at the suffix |
| Json.SpacedTrip | src/builtins.c:619-673 | for every text with white space before and after separators, before closing brackets and around colons: parsing gives what the text stands for, of equal keys the last, and stops behind it |
| Json.PrintIsTight | src/builtins.c:695-751 | what is printed is the text without white space |
| Json.IntTrip | src/builtins.c:666-671 | integers are read back |
| Json.TakesNothingIff | src/builtins.c:619-673 | the parser returns without taking a character exactly where no value begins |
| Json.HangsIff | src/builtins.c:644-655 | parsing goes round for ever if and only if some list comes to a place where an element should begin and no value does |
| Json.OverrunsIff | src/builtins.c:621-643 | parsing steps over the end of the text if and only if some object comes to a place with nothing but white space behind it |
| Json.Endless | src/builtins.c:621-655 | texts for both, at once and behind a fraction |
| Json.UnsignedIff | src/builtins.c:666-670 | the span that `strtod` takes is not empty exactly where a number begins: a digit, a point and a digit, `inf` or `nan` |
| Json.Writer.Write | src/builtins.c:695-751 | the printer appends exactly `Print` |
| Json.Reader.Read | src/builtins.c:619-673 | the parser with its pointer computes `Parse` |
| Json.Reader.ReadItems | src/builtins.c:644-655 | the loop of arrays |
| Json.Reader.ReadMembers | src/builtins.c:621-643 | the loop of objects |
| TypeStripper.Idempotent | src/ts_stripper.c:27-98 | stripping twice is stripping once |
| TypeStripper.OnlyBlanks | src/ts_stripper.c:63-92 | a character changes only to a space; line feeds and carriage returns stay, and none appears |
| TypeStripper.QuotedKept | src/ts_stripper.c:33-60 | characters the scan takes inside a string or comment do not change |
| TypeStripper.DeclarationIff | src/ts_stripper.c:63-92 | the scanner finds a declaration of a length exactly where there is one: an interface up to the brace that closes its body, an alias up to its semicolon or line end |
| TypeStripper.Stripped | src/ts_stripper.c:62-92 | in any text, a declaration at the beginning or behind a gap, where the scan is in code, comes out blank, and what follows it is stripped from its own beginning |
| TypeStripper.ChangedInside | src/ts_stripper.c:62-92 | a character changes only in such a declaration |
| TypeStripper.InterfaceGone | src/ts_stripper.c:63-81 | `interface`, a name and a body with balanced braces come out blank |
| TypeStripper.AliasGone | src/ts_stripper.c:84-92 | `type` and the text up to the semicolon come out blank |
| TypeStripper.StringKept | src/ts_stripper.c:48-60 | a string in any of the three quotes, with escapes, is kept, and the scan goes on in code |
| TypeStripper.LineCommentKept | src/ts_stripper.c:34-43 | a comment to the end of the line is kept |
| TypeStripper.BlockCommentKept | src/ts_stripper.c:34-46 | a comment up to its end mark is kept |
| TypeStripper.StripInPlace | src/ts_stripper.c:27-98 | the loop over the buffer computes `Strip`, which keeps the length |
| TypeStripper.DeclarationAt | src/ts_stripper.c:64-91 | the loops that find the end of an interface or alias |
| TypeStripper.BlankOut | src/ts_stripper.c:77-79 | the loop that blanks a range |
| Base64.RoundTrip | src/crypto_module.c:314-343 | decoding the encoder's output gives the bytes, for every byte sequence |
| Base64.DecodeEncode | src/alloc.c:1974-1997 | the same from any content of the decoder's word, whose upper bits overflow |
| Base64.SymbolAt | src/crypto_module.c:315 | the character of a digit is the one at its position in the alphabet of section 4 of RFC 4648 |
| Base64.EncodeBytes | src/crypto_module.c:314-343 | the loop and the padding compute the encoding of section 4 of RFC 4648 |
| Base64.DecodeText | src/alloc.c:1981-1994 | the loop that collects bits computes `Decode` |

## Left out

- Emitting.Emitter.CompileNode: does not model property targets, calls, `for` loops, `switch`, `break`, `continue`, `return`, functions, classes, destructuring, templates, `using`, `delete` and `await`; the code does not follow JavaScript for several of them (src/compiler.c:3401-3460, 3042-3043, 3144-3179, 3247-3259).
- Scoping.Keeps: finalizers that declare variables are excluded, because the compiler visits one scope object twice and scopes are values here; as the code reads (src/compiler.c:3113-3141 and 3494-3531), a catch parameter inside a finalizer keeps the register of the first copy, which the first statement of the handler overwrites in the second.
- Simulation.Simulate: variables live in registers; captured variables are the subject of `LexicalAddressing` and are not in the semantic proof, nor are inline blocks.
- MinorCollection.MinorCollector.WriteBarrier: the remembered bit in the header is modelled as membership in the remembered table; that every store calls the barrier is a precondition (`Ready`), not proved of the builtins, of which `GrowthBarred` covers the growth of containers.
- MinorCollection.GrowthBarred: the container is among the roots, as its growth makes it; the element stored after the growth is part of the new data block from the beginning; no other block refers to the data block that is given up.
- MinorCollection.MinorCollector.Collect: the roots are two sequences, those visited before and after the table of interned strings; the structures that hold them are not modelled, and every nursery block has at least one word, as all object layouts have.
- Marking.MajorCollector.MarkValue: skips pointers into the nursery, where src/alloc.c:1256-1263 marks them too; `Collect` begins when the nursery is empty.
- Marking.MajorCollector.Collect: begins after the nursery has been emptied; the release of external buffers and the wrapped native objects are not modelled.
- OldSpaces.OldSpace.Alloc: block sizes are unbounded, the header field has 32 bits; the zeroing of the payload is part of `MinorCollection.Padded` only.
- HashSets.HashSet.Add: holds for every hash function; the mixing function of the source, the 32-bit overflow of the capacity and the moving collector are not modelled.
- ThreadPool.AlwaysInv: the wake-up pipe and the marking of work items by the collector are not modelled; an item is submitted once, as its intrusive link requires.
- Timers.TimersInOrder: the poll, the I/O handles and the immediates are not modelled.
- Promises.Promise.React: covers one promise; chaining, `Promise.all` and the microtask loop are not modelled.
- KvStore.Store.Write: the file is a string that is always written completely; opening and renaming of files, and lengths beyond 32 bits, are not modelled.
- Json.RoundTrip: the numbers that come back are integers; of any other number the model has the text that the C library reads it from, in full, not the double, and what is printed for it is a parameter. The growth of the print buffer is not modelled.
- ParserLadder.Parse: calls, property access, arrow functions, literals other than atoms, and the tokens that begin them are not modelled; an opening parenthesis after an operand fails.
- ProgramFile.ReadProgram: the source does not check the length of its input; the model reports such a read as `Overruns`.
- Closures.InvStep: values other than environments, closures and activations, and the checks for uninitialised variables, are not modelled.
- LexicalAddressing.Resolver.ResolveAll: the tree is reduced to uses, declarations, blocks and functions in the order the resolver visits them.
- Sockets, HTTP, TLS, child processes, foreign functions, WASM, SQLite and cryptographic randomness: foreign libraries and I/O.
- Command line, REPL, sandbox flags, the vendored regular expression matcher, the formatter and the virtual file system.
- Floating-point arithmetic and the mathematical builtins; the algebra methods of Set, which are loops over `has` and `add`.
