# Verified models of the YLC engine, backend and tools

Dafny models of five parts of the repository, with proofs of what those parts are for.

1. **The WebAssembly backend and its viewer** (`wasm/main.c`, `docs/web/wasm.js`, types of `lang/mir/mir.h`).
   `Mir` and `MirEval` give MIR and its meaning, `Wasm` the instructions used and their semantics and validation
   (WebAssembly Core Specification 1.0, sections 3.3, 3.4 and 4.4), `Lowering` the backend as functions,
   `ModuleBytes` the bytes and their reader as functions. `Backend`, `WasmBuffer`, `Globals` and `JsReader` hold the
   loops over buffers, vectors and cursors, proved against those functions. `Simulation`, `CompilerTheorems`,
   `Validation`, `Acceptance`, `NamedCalls`, `ByteRoundTrip`, `EmittedBytes` and `Leb128` hold the theorems: for every
   well-typed program and session, but for one kind of cast, the emitted module is valid and keeps the meaning; its bytes
   read back always. `Truncation` is a program with that cast, `Completeness` says exactly which programs compile,
   `FunctionTypes` what type a function gets, and `MirMeaning` what the functions that MIR and WebAssembly share mean.
   `Mnemonics` and `StructuredCode` are about what the viewer shows, and what it reads beyond the backend's own code.
2. **The scheduler and the sample-accurate instruction queue** (`engine/scheduling.c`,
   `engine/audio_instructions.c`). `Protocol` is one machine with a step for every push, collection, fire,
   cancellation and audio event, so a run is any interleaving of the two threads and their callers. `Scheduler`,
   `EventHeap` and `AudioThread` are the objects and loops behind the steps; `TaskTree`, `BoundedWork`, `AudioRun`,
   `Automation` and `Delays` hold the theorems about runs, wakeups, blocks and inlets; `Firing` says what each step does
   and which events a wakeup calls; `AudioRefinement` shows that the runs by blocks are what the machine does, whatever
   the other threads do in between.
3. **The audio render plan** (`engine/engine_core.c`, `engine/ctx.c`). `RenderPlan.Renderer` walks and prunes the mutable
   node graph; `RenderGraph` shows that what it computes is a topological order of what is needed.
4. **Two indexes that refine a map** (`lang/btree_map.c`, `lang/ht.c`, `lang/common.c`). `RbTree` is red-black insertion
   on trees with a path, `RbStore` what the parent-pointer heap has to do with them, `BtreeMap` the loops and rotations
   on that heap, `RbRemoval` the removal of one key. `ProbeTable` is linear probing, `HashTable` the object.
5. **Name resolution and table formatting** (`tools/ylc_lsp_server.c`, `tools/md_tablefmt.py`). `Scopes`, `Collectors` and
   `NameAgreement` relate the search under the cursor with the two collecting traversals, `LetBindings` what they say of
   a let in a document; `Declarations` reads off the tree what a pattern, statement or module declares, and
   `UseResolution` shows which declaration each use leads to; `LanguageServer` holds those traversals as methods of the
   objects they fill. `TableText`, `TableRows`, `TableFormat` and `TableDocument` relate printing a table and splitting
   it, and `TableLayout` says what a formatted table looks like.

`dafny verify dfyconfig.toml` checks all of it.

## Where the code does less than it seems to

Each of these is proved, with the exact condition under which the code does meet the property:

- A cast from `Num` to `Uint64` is emitted as 0xae, the opcode of `i64.trunc_f32_s`; a 64-bit float is truncated by 0xb0
  (WebAssembly Core Specification 1.0, section 5.4.5). The module of a well-typed program is valid if and only if no
  function in it has such a cast in any of its blocks, and a valid module runs as the program does
  (`CompilerTheorems.EmittedModuleValid`, `CompilerTheorems.CompilationPreservesMeaning`). `Truncation.InvalidModule`
  is a program of one such cast whose module is invalid. `docs/web/wasm.js` shows the byte under the
  name that the backend means, every other instruction under its own (`Mnemonics.NamesShown`).
- `docs/web/wasm.js` reads a 64-bit constant back if and only if it is at least -2^62 (`Leb128.S64RoundTrip`); a ten-byte
  constant is read without its sign. The bytes of the constant are right (`Leb128.SpecReads`). Two different instructions are
  shown alike if and only if both are zeros or both NaNs of one float type, or the same memory access with alignments
  equal modulo 32; different integer constants never are (`ByteRoundTrip.ShownAlike`).
- Removing a key from a red-black tree keeps equal black heights if and only if the node spliced out is red, has a child
  or is the whole tree (`RbRemoval.RemoveCorrect`, `RbRemoval.LostBlack`): `delete_fixup` on a missing child stops at once.
- Formatting a document twice is formatting it once if and only if no table is followed at once by another one
  (`TableDocument.FormatTextTwice`, `TableFormat.AdjacentTables`).
- A program well typed function by function compiles if and only if it has an entry, known instructions with the
  operands they take, blocks that end as they may, and room for its globals (`Completeness.CompilesExactly`).
- The rows of a formatted table have every column at the same place; the delimiter row has a column there if and only if
  every column before it is at least three characters wide (`TableLayout.ColumnsLineUp`).
- A rename started on the name of a `let ... in` reaches every use that the let binds if and only if the `in` part has
  no use of the name: the search answers there with the let, while those uses belong to the name
  (`LetBindings.LetInDeclaration`, `LetBindings.UseLeftOut`). On uses the search and both collecting traversals agree
  (`NameAgreement.RenameAgrees`, `NameAgreement.ReferencesAgree`).
- A quantised start of a pattern goes through seconds as a double: samples divided by the rate, multiplied by it again,
  each rounded, and cut. It is on the grid if and only if the rounded product is not below the samples or the quantum is
  one sample; otherwise it is one sample early (`Delays.StartOnGrid`, `Delays.OneSampleShort`; `Delays.StartsEarly` at 27
  samples). `defer_quant` stays in whole samples and is always on the grid (`Delays.NextMultiple`).
- An audio message popped while the event heap is full is lost. Taking the messages of a block loses one if and only if
  heap and ring together hold more than 256 (`AudioRun.DrainLoses`); over a run of blocks nothing is lost if and only if
  no block finds more (`AudioRun.NothingLost`). With 256 messages for later in the heap the next one is lost
  (`AudioRun.OneTooMany`, `AudioRun.FullHeapLoses`).

## Model

| member | source | states |
|---|---|---|
| CompilerTheorems.CompilationPreservesMeaning | wasm/main.c:2060-2121 | For every well-typed program that compiles, every REPL session, memory and amount of call depth: if no function of the module truncates a 64-bit float to a 64-bit integer, calling any function's index in the emitted module gives the same result, the same prints and host calls in the same order and the same global cells as evaluating the function directly, nested calls included, and both trap, or both run out of depth, together; otherwise the module is invalid. |
| CompilerTheorems.EmittedModuleValid | wasm/main.c:2060-2121 | The module emitted for a well-typed program satisfies the module validity rules of the WebAssembly Core Specification 1.0 (section 3.4) if and only if no block of a function in it has a cast from a 64-bit float to a 64-bit integer. |
| CompilerTheorems.EmittedIndices | wasm/main.c:1001-1099 | The type, function and export indices of every emitted module, valid or not, name what is there. |
| Truncation.InvalidModule | wasm/main.c:1655-1658 | A top level that casts its Num to Uint64 is well typed and compiles to the byte 0xae on a 64-bit float, and the module is not valid. |
| CompilerTheorems.EntryIsTop | wasm/main.c:1161-1176 | When the program has a top-level function with an index, the exported entry is that function. |
| CompilerTheorems.EntryElseFirst | wasm/main.c:1161-1176 | Otherwise it is the first function defined, right behind all imports. |
| Completeness.CompilesExactly | wasm/main.c:2060-2121 | A program well typed function by function, whose values are all given somewhere, compiles if and only if it has a top level or a definition, every instruction of its definitions is one the backend knows with the operands it takes, every block returns, is never left or runs off a function without result, and all globals it names that have no slot yet fit into the region and into memory. |
| Completeness.ContextExactly | wasm/main.c:960-1054 | The functions of a program are collected if and only if every external or accepted one returns nothing, a module or a type with a representation. |
| Completeness.InstrLowered | wasm/main.c:1852-1883 | A well-typed instruction whose operands have locals is lowered if and only if it is known and its global, if it names one, has an address. |
| Completeness.AddressFits | wasm/main.c:250-272 | A request for one of some names succeeds as long as all of them fit, and whether they fit does not change. |
| Completeness.OperandsLowered | wasm/main.c:1783-1824 | The operands of a well-typed call are emitted if and only if each is a value of the function, and then there are as many as the callee has WebAssembly parameters. |
| CompilerTheorems.CompiledRunEnds | wasm/main.c:2060-2121 | Without self-recursion, and when nothing calls the top level, running any function of the emitted module with 34 nested calls allowed, the exported one included, ends with the answer or the trap that evaluating it has, if no function truncates a 64-bit float to a 64-bit integer; otherwise the module is invalid. |
| CompilerTheorems.PagesCover | wasm/main.c:90-109 | Memory of the session's pages reaches past every slot handed out. |
| CompilerTheorems.CompiledLinked | wasm/main.c:1987-2052 | What a successful compilation returns fits together: indices, bodies and the slot table extended by the addresses used. |
| Simulation.SimInstr | wasm/main.c:1852-1883 | One MIR instruction and its stack code end in related states, the result in the local of the value and the stack empty again, exactly if the instruction is no truncation of a 64-bit float to a 64-bit integer. |
| Simulation.SimBody | wasm/main.c:1987-2039 | A whole body without such a truncation: evaluating the entry block and running the emitted code give related outcomes, by induction on call depth. |
| Simulation.CallStep | wasm/main.c:1783-1846 | The operands of a call arrive as the callee's parameters in order, and its result comes back as the value of the call. |
| Simulation.HostRun | wasm/main.c:1121-1152 | An external callee is the import of its name, called with the same arguments at the same point of the trace. |
| MirMeaning.CallMeans | wasm/main.c:890-906 | A call means the function it is specialised to, else the one its callee refers to where that value is defined first; a builtin call means none. |
| MirMeaning.CallResolved | wasm/main.c:1743-1781 | A call is bound to the entry of the function it is specialised to, else to that of the specialised name, else to that of the function its callee refers to, else to that of the name it refers to it by. |
| MirMeaning.FirstDefinition | lang/mir/mir.c:801-820 | The instruction found for a value is the first one with that result, and none is found exactly if there is none. |
| MirMeaning.BlocksInOrder | lang/mir/mir.c:806-817 | The instructions of a function are those of its blocks, one block after the other. |
| MirMeaning.PrintedAs | wasm/main.c:1664-1715 | A value of type `String`, by kind or by name, is printed as a string at its address, any other as an integer, a 64-bit one cut to 32 bits. |
| Simulation.PrintExec | wasm/main.c:1664-1715 | The printing code adds exactly the one event the print stands for and leaves the stack empty. |
| Simulation.BuiltinRun | wasm/main.c:1664-1715 | A call of import 0 or 1 prints its operand as an integer or as a string address. |
| Simulation.LoadRun | wasm/main.c:1555-1580 | A global load pushes the value its cell holds, at the type of the instruction. |
| Simulation.StoreRun | wasm/main.c:1582-1617 | A global store writes the stored value's bytes into the cell and yields the value again if the instruction has a type. |
| Simulation.StoreCell | wasm/main.c:1582-1617 | After a store the cell of that global is updated and the cell of every other global is what it was. |
| Simulation.OverwriteElsewhere | wasm/main.c:1582-1617 | A write inside one slot changes no byte of a slot disjoint from it. |
| Simulation.PrimitiveRun | wasm/main.c:1521-1553 | The operands and the opcode leave what the operator computes, or trap where it stops. |
| Simulation.CastRun | wasm/main.c:1619-1662 | A cast's code leaves the converted value, or traps where the conversion has no result, exactly if it does not truncate a 64-bit float to a 64-bit integer; that code gets stuck. |
| Simulation.TermRun | wasm/main.c:1885-1914 | A return hands over exactly the result the function type asks for. |
| Simulation.StoreResultRun | wasm/main.c:1284-1304 | The value of an action ends in the local of its result, and every value defined before is still in its own. |
| Simulation.ParamsRun | wasm/main.c:653-692 | Called with its arguments, a body finds them in its first locals. |
| NumericProofs.OperatorCorrect | wasm/main.c:1422-1519 | For every operator and operand class the opcode chosen computes the operator, signed or unsigned, modulo the width, and traps exactly for zero divisors and overflowing signed division. |
| NumericProofs.CastCorrect | wasm/main.c:1619-1662 | The conversion opcode chosen computes the cast and traps exactly where the cast has no value, but from F64 to I64 it names an instruction on a 32-bit float, ill-typed on the operand. |
| NumericProofs.NotCorrect | wasm/main.c:1521-1553 | The two-opcode path for logical not answers 1 for zero and 0 for anything else, at both integer widths. |
| NumericProofs.OpcodeNames | wasm/main.c:1422-1519 | An opcode exists for every operator MIR defines on a class, and it names an instruction with two operands of that class and the operator's result class. |
| NumericProofs.RepInjective | wasm/main.c:504-533 | Two MIR values of one class with the same machine representation are the same value. |
| NumericProofs.DivOverflow | wasm/main.c:1422-1519 | Signed division leaves the range only for the least number by -1. |
| MirMeaning.CutTowardsZero | wasm/main.c:1422-1519 | Signed division is cut towards zero: the remainder is smaller than the divisor and has the sign of the dividend. |
| MirEval.CellRoundTrip | wasm/main.c:1306-1356 | A cell read at the width it was written at gives the value back, whatever its other bytes hold. |
| MirMeaning.BytesOfValue | wasm/main.c:1306-1356 | A 32-bit value takes the first four bytes of its cell and leaves the others, a 64-bit one takes all eight. |
| MirMeaning.LowestFirst | wasm/main.c:1306-1356 | A number is kept with its lowest byte first. |
| MirMeaning.NaturallyAligned | wasm/main.c:1306-1356 | Loads and stores are marked as aligned to the size of their value. |
| LayoutProofs.LayoutCorrect | wasm/main.c:1232-1271 | Distinct values have distinct locals of their own types, parameters take locals 0..n in signature order, and every result with a type has a local. |
| LayoutProofs.UnpassedHaveNone | wasm/main.c:653-692 | The environment and parameters of type Void have no local. |
| LayoutProofs.AddParamsOk | wasm/main.c:653-692 | Laying out the parameters keeps locals distinct and correctly typed and never moves an earlier one. |
| LayoutProofs.DeclareInstrsOk | wasm/main.c:1232-1271 | Declaring the results of a block keeps what is laid out, adds only after it, and leaves no result pending. |
| Validation.BodyValid | wasm/main.c:1987-2039 | The body emitted for a well-typed function validates at the function's type (section 3.3 of the WebAssembly Core Specification 1.0) if and only if no block of the function truncates a 64-bit float to a 64-bit integer. |
| Validation.InstrCheck | wasm/main.c:1852-1883 | Each MIR instruction's code finds operands of the right types and brings the stack back to its height, or is refused, exactly if the instruction is such a truncation. |
| Validation.ActionCheck | wasm/main.c:1367-1846 | Every kind of action consumes nothing that it did not push and leaves exactly one operand of its result type, or none; exactly such truncations are refused. |
| Validation.TermCheck | wasm/main.c:1885-1914 | A terminator finds the results it returns. |
| Validation.EntryInRange | wasm/main.c:1161-1176 | The exported index names a function of the module. |
| ModuleProofs.IndicesCorrect | wasm/main.c:1001-1054 | Function indices are positions in the index space, built-in imports first, then external functions, then definitions; each entry's type index denotes its function's type. |
| ModuleProofs.IndexDenotes | wasm/main.c:1743-1781 | The index a call uses denotes its target: the import of the target's name, or the body of the target, at the target's type. |
| ModuleProofs.FunctionsLinked | wasm/main.c:2041-2052 | Lowering the functions one after another keeps every address handed out earlier, so that each body can be read against the final slot table. |
| CallProofs.CallTargetIs | wasm/main.c:1743-1781 | A well-typed call is resolved to the function it means, through a function value or a name. |
| CallProofs.NamesDecide | wasm/main.c:1743-1781 | Where the functions of a program have names of their own and the call names the function it means, it is resolved to what the lookup of that function gives: to its index, or to nothing. |
| CallProofs.LookupIsFirst | wasm/main.c:1065-1082 | A name is looked up among the external functions and then among the definitions: the first one that has it is found, and none exactly if none has it. |
| NamedCalls.NamedWellTyped | wasm/main.c:1743-1781 | A program with distinct names, typed function by function, is a well-typed program once it compiles: its calls go to functions of the module. |
| NamedCalls.NamedCompilation | wasm/main.c:2060-2121 | Compilation preserves the meaning of every program with distinct names, typed function by function, that compiles; nothing is asked of the functions called but their names. |
| CallProofs.CallLowered | wasm/main.c:1783-1846 | A call that lowers has the callee's index, as many arguments as parameters, and drops exactly the operands without a type. |
| Acceptance.AcceptedClosed | wasm/main.c:908-958 | Every defined function that an accepted function calls is accepted on its own. |
| Acceptance.SupportedMonotone | wasm/main.c:908-954 | A function accepted at some depth is accepted at every smaller depth. |
| Acceptance.NoMutualRecursion | wasm/main.c:908-954 | No function on a cycle of calls through two or more functions is accepted. |
| Acceptance.ChainBounded | wasm/main.c:908-954 | From an accepted function no chain of calls to other functions is longer than the depth limit of 32 allows. |
| Acceptance.AcceptedExactly | wasm/main.c:908-954 | A defined function is accepted if and only if every chain of calls from it is at most 33 functions long and ends at a function without type variables, unsupported instructions, indirect calls and branches. |
| Acceptance.CalleesHaveIndices | wasm/main.c:1033-1051 | What an accepted function calls has an index in the module, an external callee provided its type has no type variables. |
| Acceptance.AcceptedTerminates | wasm/main.c:908-958 | An accepted function without self-recursion never nests more than 33 calls, so evaluating it with that many allowed always ends. |
| Acceptance.IndexedTerminates | wasm/main.c:960-1054 | No function of the module, the unchecked top level included, nests more than 34 calls. |
| Globals.AddressCorrect | wasm/main.c:250-272 | A request keeps every earlier address, gives a new name an aligned slot inside the region and inside memory, disjoint from all others, and fails exactly when the name is new and the region is full or memory cannot grow; a failure changes nothing. |
| Globals.RegionIs | wasm/main.c:250-272 | Addresses are multiples of eight from 1 MB up to 16 MB, the first one of a session 1 MB. |
| Globals.PagesExact | wasm/main.c:90-109 | Memory grows, in pages of 64 KB, only if it must and no further than it must, and cannot grow exactly if its largest size is too small. |
| Globals.SessionStable | wasm/main.c:250-272 | Over any sequence of requests every name keeps its address and all slots stay disjoint and inside the region, and a name asked for has a slot unless it was refused one. |
| Globals.GlobalSession.AddressOf | wasm/main.c:250-272 | The session object after a request is the one `Address` describes. |
| Globals.GlobalSession.EnsureMemory | wasm/main.c:90-109 | Memory grows to the pages needed or not at all. |
| Leb128.U32RoundTrip | docs/web/wasm.js:244-257 | Every u32 is read back and reading stops right after its last byte, wherever the bytes stand. |
| Leb128.S32RoundTrip | docs/web/wasm.js:331-348 | Every i32 is read back with the exact next position, through 32-bit shifts whose count wraps. |
| Leb128.S64RoundTrip | docs/web/wasm.js:350-367 | An i64 is read back if and only if it is at least -2^62. |
| Leb128.S64Misread | docs/web/wasm.js:350-367 | The least i64 is read as 2^70 - 2^63. |
| Leb128.SpecReads | wasm/main.c:423-435 | The decoder of section 5.2.2 of the WebAssembly Core Specification 1.0 reads every number of n bits back, so all i64 are encoded correctly. |
| Leb128.EncodedLengths | wasm/main.c:398-435 | u32 and i32 take at most 5 bytes, i64 at most 10. |
| WasmBuffer.WasmBuf.Push | wasm/main.c:375-381 | One byte is appended; the buffer doubles when it is full and keeps what it holds. |
| WasmBuffer.WasmBuf.LebU32 | wasm/main.c:398-407 | The loop appends exactly the encoding of the number. |
| WasmBuffer.WasmBuf.LebS | wasm/main.c:409-435 | The loop appends exactly the signed encoding, stopping at the first byte whose sign bit agrees with the rest. |
| WasmBuffer.WasmBuf.Section | wasm/main.c:464-470 | A section is its id, its size cut to 32 bits and its payload, of any length. |
| WasmBuffer.WasmBuf.Name | wasm/main.c:456-462 | A name is its length and its bytes. |
| EmittedBytes.EmittedReadsBack | docs/web/wasm.js:394-521 | For every well-typed program that compiles to a module whose parts fit 32 bits, valid or not, the bytes written parse, and the viewer's module is the one that was lowered. |
| EmittedBytes.HostNames | wasm/main.c:1121-1176 | A module imports `env.memory`, `ylc_print_int` and `ylc_print_string` for one 32-bit integer, `ylc_abort` for none and the external functions by their names, in this order, and exports its entry as `ylc_entry`. |
| EmittedBytes.ActionKnown | docs/web/wasm.js:523-588 | The viewer has a name for every numeric opcode in the code of an action. |
| ByteRoundTrip.ValidFits | docs/web/wasm.js:523-588 | A valid module whose counts and sizes fit 32 bits can be written and read back if and only if the viewer has a name for each of its numeric opcodes. |
| ByteRoundTrip.ModuleRoundTrip | docs/web/wasm.js:394-521 | Parsing the emitted bytes recovers the types, the imports in index order, the function type indices, the export, the local declarations and the instruction list of every body. |
| ByteRoundTrip.InstrDecodes | docs/web/wasm.js:603-716 | Every emitted instruction is decoded as its own line and decoding goes on right after its bytes. |
| ByteRoundTrip.CodeDecodes | docs/web/wasm.js:603-716 | A whole body is decoded as the lines of its instructions, up to its end. |
| StructuredCode.NestedReads | docs/web/wasm.js:603-716 | Code with blocks, branches and all variables in any nesting, written after section 5.4 of the WebAssembly Core Specification 1.0, is decoded as its lines, each indented by the blocks it stands in. |
| StructuredCode.OtherSection | docs/web/wasm.js:394-521 | A section that is no type, import, function, export or code section is skipped, whatever it holds. |
| StructuredCode.LimitsRead | docs/web/wasm.js:369-385 | Limits with a maximum are read as their minimum, and reading goes on behind the maximum. |
| StructuredCode.OtherImport | docs/web/wasm.js:446-475 | An import that is neither function nor memory is kept with its names and kind, numbered like a memory, and reading goes on right behind its kind. |
| StructuredCode.SectionPastEnd | docs/web/wasm.js:394-521 | A section that says it is longer than the bytes are is an error. |
| StructuredCode.HeaderNeeded | docs/web/wasm.js:394-521 | Only bytes that begin with the magic number and are at least eight are read; eight are an empty module. |
| ByteRoundTrip.LineInjective | docs/web/wasm.js:603-716 | Two different instructions decode to different lines, while floats are still bits; 64-bit constants read wrongly included. |
| ByteRoundTrip.ShownAlike | docs/web/wasm.js:603-716 | The texts of two instructions are the same if and only if the instructions are equal, both zeros or both NaNs of one float type, or one memory access with alignments equal modulo 32. |
| ByteRoundTrip.ShownRight | docs/web/wasm.js:603-716 | The line shows the instruction's own immediate, except exactly for i64 constants below -2^62. |
| Mnemonics.NamesShown | docs/web/wasm.js:523-601 | Every instruction of an emitted body is shown under the name that the WebAssembly Core Specification 1.0 (section 6.5) gives it, but for 0xae, shown as the truncation of a 64-bit float. |
| Mnemonics.TypesShown | docs/web/wasm.js:302-313 | The byte of each value type is shown as that type. |
| Mnemonics.TablesAgree | docs/web/wasm.js:523-601 | The decoder takes for memory accesses and for plain instructions exactly the opcodes that have a keyword. |
| ByteRoundTrip.BytesDetermineModule | wasm/main.c:2060-2121 | Two modules with the same bytes have the same types, imports, functions, entry and bodies. |
| ByteRoundTrip.TypeSectionDecodes | wasm/main.c:1101-1119 | The type section reads back as the type table. |
| ByteRoundTrip.ImportSectionDecodes | wasm/main.c:1121-1152 | The import section reads back as the memory and the functions, each function under its own index. |
| ByteRoundTrip.FunctionSectionDecodes | wasm/main.c:1154-1159 | The function section reads back as the type indices of the definitions. |
| ByteRoundTrip.ExportSectionDecodes | wasm/main.c:1161-1176 | The export section reads back as one function export with the entry's index. |
| ByteRoundTrip.CodeSectionDecodes | wasm/main.c:2041-2052 | The code section reads back as the local declarations and instructions of every body. |
| ByteRoundTrip.LocalsDecode | wasm/main.c:1273-1282 | One declaration per local after the parameters is read back as its type. |
| Backend.LowerMirToWasm | wasm/main.c:2060-2121 | The bytes returned are those of the lowered module, and nothing is returned exactly when the program cannot be lowered; the session is the one lowering leaves. |
| Backend.BuildCodeSection | wasm/main.c:2041-2052 | The section holds the bodies of the definitions in index order. |
| Backend.BuildFunctionBody | wasm/main.c:1987-2039 | One body after its size, and failure exactly where the lowering has none. |
| Backend.BuildHeads | wasm/main.c:2086-2091 | The type, import, function and export payloads are those of the module. |
| Backend.JoinSections | wasm/main.c:2069-2102 | Header and sections in the fixed order, the sizes right. |
| Backend.LowerBlocks | wasm/main.c:1950-1985 | The code is that of block 0 followed by the blocks not visited yet. |
| Backend.LowerInstr | wasm/main.c:1852-1883 | The code of one instruction with its `local.set`. |
| Backend.LowerCall | wasm/main.c:1826-1846 | The call's operands in order and the call of the target's index. |
| Backend.BuildLayout | wasm/main.c:653-692 | Slots and local types are those of `LayoutOf`. |
| Backend.FnCtx.AllocLocal | wasm/main.c:630-651 | The next local gets the type asked for. |
| Backend.FnCtx.DeclareInstrLocals | wasm/main.c:1232-1271 | The loop declares the results of a list of instructions. |
| Backend.FnCtx.EmitValue | wasm/main.c:1208-1230 | A value's code is its `local.get`; values without a local are refused. |
| Backend.FnCtx.EmitResultStore | wasm/main.c:1284-1304 | The result goes to the slot's local, or is dropped. |
| Backend.FnCtx.LowerConst | wasm/main.c:1367-1420 | The constant instruction for each kind of constant. |
| Backend.FnCtx.LowerPrimitive | wasm/main.c:1521-1553 | Operands, then the opcode of the first operand's type, with logical not as a case of its own. |
| Backend.FnCtx.LowerGlobalLoad | wasm/main.c:1555-1580 | Address and load at the instruction's type. |
| Backend.FnCtx.LowerGlobalStore | wasm/main.c:1582-1617 | Address, value and store at the value's type, and the value again if it has a result. |
| Backend.FnCtx.LowerCast | wasm/main.c:1619-1662 | Operand and conversion opcode. |
| Backend.FnCtx.LowerTerminator | wasm/main.c:1885-1914 | Results and `return`, or `unreachable`; branches are refused. |
| Backend.FnCtx.EmitLocalDecls | wasm/main.c:1273-1282 | One declaration of count one for every local after the parameters. |
| Backend.ModuleContext.AddType | wasm/main.c:790-833 | A type already in the table keeps its index, a new one is appended. |
| Backend.ModuleContext.AddFuncDef | wasm/main.c:960-999 | A definition gets the next index and the index of its type, whose parameters and result are those of `FunctionTypes.ParamTypesAre` and `FunctionTypes.ResultOfFunction`. |
| FunctionTypes.ReturnsAfterParams | wasm/main.c:580-607 | A function without `$env` of type p1 -> ... -> pn -> r with n parameters returns r, or x if r is Void -> x and no closure. |
| FunctionTypes.ReturnsFromNothing | wasm/main.c:580-607 | A function without parameters returns x if its type is Void -> x and no closure, and the function itself if it is a closure. |
| FunctionTypes.ReturnsWithEnv | wasm/main.c:585-602 | With `$env` as first parameter, counted by the type or not, the same results hold, and a closure of type Void -> x returns x too. |
| FunctionTypes.ReturnsEarly | wasm/main.c:585-607 | With more parameters than the type has, the result is what is left when the type is no function any more. |
| FunctionTypes.ParamTypesAre | wasm/main.c:575-578 | The WebAssembly parameters are the parameters with a value, `$env` excepted, in order. |
| FunctionTypes.ResultOfFunction | wasm/main.c:609-616 | The WebAssembly result of a function has the class of its return type, none for nothing, modules and type variables. |
| FunctionTypes.ClassOfType | wasm/main.c:504-533 | Numbers are 64-bit floats, `Uint64` is 64 bits wide, truth values, characters and everything kept by reference are 32 bits wide, the rest has no value. |
| FunctionTypes.TypeVarsInside | wasm/main.c:542-569 | A type counts as having type variables if and only if a chain of its parts leads to one. |
| Backend.ModuleContext.Init | wasm/main.c:1001-1054 | The context is the one of the program: accepted functions, external ones first. |
| Backend.ModuleContext.FindFuncById | wasm/main.c:1084-1099 | The entry of a function, found among definitions and imports. |
| Backend.ModuleContext.FindFunc | wasm/main.c:1065-1082 | The first entry with a name. |
| Backend.ModuleContext.BuildTypeSection | wasm/main.c:1101-1119 | The payload is the encoded type table. |
| Backend.ModuleContext.BuildImportSection | wasm/main.c:1121-1152 | The payload is the memory, the three built-ins and the external functions. |
| Backend.ModuleContext.BuildExportSection | wasm/main.c:1161-1176 | The payload exports the entry, and building fails exactly if there is none. |
| JsReader.ReadLebU32 | docs/web/wasm.js:244-257 | The loop returns what the reader function returns, and leaves the position after the number. |
| JsReader.ReadLebI32 | docs/web/wasm.js:331-348 | As above for signed 32-bit numbers, sign filled by a shift of all ones. |
| JsReader.ReadLebI64 | docs/web/wasm.js:350-367 | As above for signed 64-bit numbers in unbounded integers. |
| JsReader.DecodeWatInstructions | docs/web/wasm.js:603-716 | The loop yields the decoded lines of the code between two positions. |
| JsReader.ParseWasm | docs/web/wasm.js:394-521 | The section loop fills the module object with what the reader function finds, and fails where it fails. |
| JsReader.ModuleView.ReadImportSection | docs/web/wasm.js:446-475 | The imports in order, functions counted apart from memories. |
| JsReader.ModuleView.ReadCodeSection | docs/web/wasm.js:495-514 | The bodies in order, each with its locals and lines. |
| Protocol.StepKeeps | engine/scheduling.c:97-857 | Every atomic step keeps the tree linked and closed under cancellation, both queues sorted and every event's task known. |
| Protocol.CancelSafety | engine/scheduling.c:745-767 | After `cancel_task(h)`, in every run, no step fires, reschedules or forks from `h` or anything below it, events already in the collected batch included. |
| Protocol.CancelledUntouched | engine/scheduling.c:530-565 | A cancelled task stays cancelled over a step and the step does not touch it. |
| Protocol.DescendsStable | engine/scheduling.c:172-189 | No step changes which existing task is below which. |
| Protocol.AudioCancelSafety | engine/audio_instructions.c:305-339 | Once the audio side has recorded the cancellation of a task at tick c, no step of any run applies an instruction of the task with a tick of c or later. |
| Protocol.TableStays | engine/audio_instructions.c:110-129 | An instruction dropped by the table is dropped ever after. |
| Protocol.DispatchTick | engine/scheduling.c:105-112 | A dispatch tick is not before the base, at most the lookahead before the target, and exactly the lookahead before it unless it is the base. |
| Protocol.DueCount | engine/scheduling.c:518-526 | A batch is the due prefix, cut at the batch size; if it is shorter, the next event is not due. |
| TaskTree.CancelCorrect | engine/scheduling.c:191-200 | Cancelling a task cancels exactly the task and what is below it, and keeps cancellation closed downward. |
| TaskTree.CancelledBelow | engine/scheduling.c:191-200 | In a closed tree everything below a cancelled task is cancelled. |
| TaskTree.CreateClosed | engine/scheduling.c:810-827 | A fork from a live parent keeps the tree closed and linked. |
| BoundedWork.DrainBounded | engine/scheduling.c:661-680 | If every step waits at least a sample and forks nothing, the drain loop ends, nothing due is left, and each task is called no more often than its events allow. |
| BoundedWork.WakeupBounded | engine/scheduling.c:661-680 | A task whose only event is pending at tick T fires at most now + lookahead + 1 - T times, and afterwards every pending task event is later than now + lookahead. |
| BoundedWork.StepTimed | engine/scheduling.c:347-407 | Dispatch ticks and event ticks stay related as `DispatchTick` set them, over every step. |
| BoundedWork.TimedLater | engine/scheduling.c:105-112 | That relation, once true at a clock, stays true at every later one. |
| EventHeap.BatchSorted | engine/scheduling.c:518-526 | However sorted events are cut into a batch of at most 64 and a rest, both are sorted by dispatch tick and sequence, and behind a batch shorter than 64 nothing is due. |
| EventHeap.HeapifyUp | engine/scheduling.c:246-256 | Sifting up restores heap order and keeps the multiset of events. |
| EventHeap.HeapifyDown | engine/scheduling.c:258-281 | Sifting down restores heap order and keeps the multiset of events. |
| EventHeap.EventHeap.Push | engine/scheduling.c:366-392 | The pending events are the old ones with the new one at its place in (tick, sequence) order, growing included. |
| EventHeap.EventHeap.Pop | engine/scheduling.c:283-305 | The earliest event is taken off, or nothing from an empty heap. |
| EventHeap.EventHeap.CollectDue | engine/scheduling.c:518-526 | The batch is the longest due prefix of at most 64 events, sorted by dispatch tick and sequence, and the heap keeps the rest, with nothing due behind a short batch. |
| EventHeap.EventHeap.Grow | engine/scheduling.c:366-377 | Doubling keeps the events. |
| EventHeap.AudioHeap.Push | engine/audio_instructions.c:75-84 | With room the event goes to its place under the next number; a full heap refuses and changes nothing. |
| EventHeap.AudioHeap.Pop | engine/audio_instructions.c:86-93 | The earliest event is taken off. |
| EventOrder.SortedUnique | engine/scheduling.c:97-103 | Sorted lists with the same events are equal, so the order of events with one tick is fixed by their numbers. |
| EventOrder.RootIsHead | engine/scheduling.c:283-305 | The root of a heap is the first of its events in sorted order. |
| EventOrder.InsertSorted | engine/scheduling.c:97-103 | A new event with the largest number goes behind its equals. |
| Delays.NoDrift | engine/scheduling.c:214-228 | After any sequence of delays the samples waited are the exact total time, rounded down once. |
| Delays.OneSecond | engine/scheduling.c:206-228 | One second is as many samples as the device has a second, or 48000 if it has no rate. |
| Delays.NextMultiple | engine/scheduling.c:769-784 | A quantised start is a multiple of the quantum, strictly after now, with none between. |
| Delays.StartOnGrid | engine/scheduling.c:837-853 | With any rounding of doubles a quantised start of a pattern is a multiple of the quantum if and only if the rounded product of its rounded seconds and the rate is not below the samples left, or the quantum is one sample; otherwise it is one sample early. |
| Delays.OneSampleShort | engine/scheduling.c:206-212 | A number of samples turned into seconds and back, both as doubles, is itself exactly if the rounded product is not below it, and one less otherwise. |
| Delays.StartsEarly | engine/scheduling.c:206-212 | At 48000 samples a second, 27 samples come back as 26 when rounding is to the nearest double. |
| Scheduler.Scheduler.CancelTaskRecursive | engine/scheduling.c:191-200 | The recursion sets the flags `CancelFrom` describes and changes nothing else. |
| Scheduler.Scheduler.PushTaskEvent | engine/scheduling.c:347-407 | A task that is done is refused; otherwise its event is inserted at its dispatch tick and the invariants stay. |
| Scheduler.Scheduler.PushEvent | engine/scheduling.c:409-462 | A plain event is inserted at its own tick. |
| Scheduler.Scheduler.CollectDueEvents | engine/scheduling.c:518-526 | The batch is collected as one protocol step. |
| Scheduler.Scheduler.CancelTask | engine/scheduling.c:745-767 | Flags and announcements are exactly those of the protocol's cancel step and one announcement step for each newly cancelled task, in task order. |
| Scheduler.Scheduler.CompleteCurrentTask | engine/scheduling.c:732-743 | Only the current task's flag changes. |
| Scheduler.Scheduler.ScheduleCurrentTaskEvent | engine/scheduling.c:709-730 | The delay with its remainder, and an event against the scheduler's clock, unless the task is done. |
| Scheduler.Scheduler.DeferQuant | engine/scheduling.c:769-784 | A plain event at the next multiple of the quantum. |
| Scheduler.Scheduler.PlayPatternStart | engine/scheduling.c:810-857 | Nothing is started from a task that is done; otherwise one new task below the current one and one event after the delay that the way through seconds leaves, dispatched against the scheduler's clock, or against 0 from another thread. |
| Scheduler.Scheduler.FireNext | engine/scheduling.c:530-565 | The first event of the batch is taken, and fires if and only if it has no task or a task neither cancelled nor completed; the current task and tick are set and cleared as the event asks. |
| Firing.FireExact | engine/scheduling.c:530-565 | Firing takes the first event off the batch and changes nothing else; its effect is the call of that event if and only if the event has no task, or a task neither cancelled nor completed. |
| Firing.DrainCalls | engine/scheduling.c:661-680 | The calls of a wakeup are, in order, the events that may run when their turn comes. |
| Firing.DueHaveTurns | engine/scheduling.c:661-680 | Of the events pending when a wakeup begins, each that is due gets exactly one turn and the others none. |
| Firing.WakeupFires | engine/scheduling.c:661-680 | In a wakeup every pending event that is due and has no task is called, so is every other due one whose task is not done at its turn, and nothing else that was pending is called. |
| Firing.CollectExact | engine/scheduling.c:518-526 | A collection moves the longest due prefix of the queue, 64 events at most, into the batch. |
| Firing.PushTaskExact | engine/scheduling.c:347-407 | For a task that may run one event with the tick asked for joins the queue, dispatched 8192 ticks earlier or at the base, whichever is later; for a task that is done nothing changes. |
| Firing.PushPlainExact | engine/scheduling.c:409-462 | An event without a task joins the queue, dispatched at its own tick. |
| Firing.CancelExact | engine/scheduling.c:191-200 | Cancelling sets the flag of the task and of everything below it, and nothing else. |
| Firing.CompleteExact | engine/scheduling.c:732-743 | Completing a task sets its flag and nothing else. |
| Firing.StartExact | engine/scheduling.c:141-189 | A start adds one task that is not done below its parent, unless the parent is done. |
| Firing.AnnounceExact | engine/scheduling.c:745-767 | A cancelled task is announced once, by a message in the ring unless that is full. |
| Firing.InstructionExact | engine/audio_instructions.c:399-412 | A message goes last into the ring unless 256 wait there. |
| Firing.TakeExact | engine/audio_instructions.c:309-314 | The first message of the ring goes into the audio heap at its tick, or nowhere if 256 events are held. |
| Firing.AudioNextExact | engine/audio_instructions.c:316-327 | The first event before the end of the block is taken; it is applied if and only if it is no cancellation and none of its task is recorded for its tick or an earlier one. |
| Firing.CallExact | engine/scheduling.c:547-563 | A callback that cancels, waits, completes or ends leaves the state these steps leave, in that order. |
| Firing.QueuesByTick | engine/scheduling.c:97-103 | In every run both queues are in order of dispatch tick, and of arrival at one tick. |
| Scheduler.Scheduler.Wakeup | engine/scheduling.c:661-680 | The loop ends with the state and the list of calls of `Drain`. |
| AudioRun.ExactlyOnce | engine/audio_instructions.c:305-339 | In any run of blocks with room, push number i is taken in a block if and only if it has arrived, its tick is before the block's end and no earlier block took it. |
| AudioRun.TakenInOrder | engine/audio_instructions.c:315-339 | What a block takes is in order of tick, then push number, without repetition. |
| AudioRun.AppliedExactly | engine/audio_instructions.c:315-339 | A taken event is applied exactly if it is no cancellation and not dropped by one recorded before it. |
| AudioRun.AppliedInOrder | engine/audio_instructions.c:315-339 | The applied events are among the taken ones and in the same order. |
| AudioRun.OffsetInside | engine/audio_instructions.c:329-331 | An event's offset is max(0, tick - block start), and is inside the block exactly if the block has frames. |
| AudioRun.OffsetsOrdered | engine/audio_instructions.c:329-337 | Offsets follow the order of the events. |
| AudioRun.DrainLoses | engine/audio_instructions.c:309-314 | Taking the messages of a block loses exactly one if heap and ring together hold more than 256, and none otherwise. |
| AudioRun.NothingLost | engine/audio_instructions.c:309-339 | Over any run of blocks every message was taken or is still held if and only if no block finds more than 256 messages in heap and ring. |
| AudioRun.FullHeapLoses | engine/audio_instructions.c:309-314 | A message that finds the heap full is gone and nothing else changes. |
| AudioRun.OneTooMany | engine/audio_instructions.c:309-314 | 256 messages for a later block and then one more: two blocks later 256 are held and none was taken. |
| AudioRefinement.RoundsRefine | engine/audio_instructions.c:305-339 | In any run of the machine in which the audio thread goes through its two loops block by block, among any steps of the other threads, heap, counter, table and ring after a block are those of the run by blocks. |
| AudioRefinement.RoundApplies | engine/audio_instructions.c:315-339 | In such a run each block applies exactly the instructions that the run by blocks applies, in its order. |
| AudioRefinement.FirstRound | engine/audio_instructions.c:305-339 | Such runs exist: a message pushed, taken and applied in the first block of 256 frames. |
| AudioRefinement.HistoryIsArrivals | engine/audio_instructions.c:399-413 | The push order of the run by blocks is the order in which the threads put messages in the ring. |
| AudioRefinement.MachineExactlyOnce | engine/audio_instructions.c:305-339 | In such a run with room, the message that came i-th into the ring is taken in a block if and only if it is there, its tick is before the end of the block and was not before the end of an earlier block that found it. |
| AudioMessages.RecordExact | engine/audio_instructions.c:110-129 | Recording a cancellation drops exactly the task's instructions from the tick on besides those dropped before, if the task has or finds a place in the table. |
| AudioMessages.StaysCancelled | engine/audio_instructions.c:95-129 | Later records never revive an instruction. |
| AudioThread.AudioQueue.PushMsg | engine/audio_instructions.c:399-412 | A message goes to the end of the ring with the current task filled in; a full ring drops it. |
| AudioThread.AudioQueue.PopMsg | engine/audio_instructions.c:426-431 | The oldest message comes off, across the wrap-around. |
| AudioThread.IsCancelled | engine/audio_instructions.c:95-108 | The scan of the table answers whether the instruction is dropped. |
| AudioThread.Record | engine/audio_instructions.c:110-129 | The table after recording, a known task keeping its earliest tick. |
| AudioThread.AudioThread.EventsPre | engine/audio_instructions.c:305-339 | Heap, queue, table and the list of active events after the two loops are those of the run model. |
| AudioThread.AudioThread.EventsPost | engine/audio_instructions.c:341-347 | Every active event gets one second-phase step, last first, and none stays. |
| Automation.WhileRendering | engine/audio_instructions.c:168-183 | While a block is rendered, a frame holds the value of the last event at or before it, else the old value. |
| Automation.AfterBlock | engine/audio_instructions.c:269-285 | After the second phase a frame holds the value of the first event after it, else of the last event. |
| Automation.FrameHolds | engine/audio_instructions.c:168-285 | Of events in order, the first k at or before a frame: the frame holds the k-th one's value while the block is rendered, and afterwards that of the next one, or of the last. |
| Automation.Split | engine/audio_instructions.c:316-338 | Events in order of their offsets have such a k for every frame. |
| Automation.SingleEvent | engine/audio_instructions.c:269-285 | A single event leaves its value in the whole buffer. |
| InletEvents.ScalarPre | engine/audio_instructions.c:168-183 | The buffer is filled from the offset on, up to its end, and nothing before it changes. |
| InletEvents.InletWrites | engine/audio_instructions.c:132-141 | The buffer written is that of the node connected to the input, none if the target is about to be freed, has no such input or nothing connected to it. |
| InletEvents.ScalarPost | engine/audio_instructions.c:269-285 | The buffer is filled before the offset, and nothing after it changes. |
| InletEvents.TrigPre | engine/audio_instructions.c:236-249 | One frame becomes 1. |
| InletEvents.TrigPost | engine/audio_instructions.c:287-299 | That frame is 0 again. |
| InletEvents.RunPre | engine/audio_instructions.c:329-338 | First phases in order leave on every buffer what its own events leave. |
| InletEvents.RunPost | engine/audio_instructions.c:341-347 | Second phases in reverse order leave on every buffer what its own events leave. |
| InletEvents.OrderedOn | engine/audio_instructions.c:329-347 | Events of a block restricted to one buffer are in order of offset, as the automation laws ask. |
| RenderGraph.PlanIsTopological | engine/engine_core.c:217-279 | The plan holds exactly the live renderable nodes reachable from the list through live nodes, each once, and everything a node needs is before it. |
| RenderGraph.SourcesFirst | engine/engine_core.c:217-266 | Every live renderable input or mix source of a planned node is in the plan before it. |
| RenderGraph.ConeClosed | engine/engine_core.c:217-266 | What a node needs is closed under live inputs and mix sources. |
| RenderGraph.BuildExtends | engine/engine_core.c:268-279 | Building from a good plan keeps it as a prefix and adds exactly what is reached. |
| RenderGraph.VisitExtends | engine/engine_core.c:217-266 | One visit extends a good plan by what the node needs and the node itself. |
| RenderPlan.Renderer.Rebuild | engine/engine_core.c:217-279 | On the nodes' fields: the plan holds exactly the live renderable nodes that are needed, once each, sources first; each operation has min(numInputs, MAX_INPUTS) inputs, entry j being `connections[j]` of its node; every mix list reached is left as its live sources in order and every other untouched, and the generation is recorded. |
| RenderPlan.PlanOnFields | engine/engine_core.c:217-279 | What the plan of a graph says of the fields of its nodes: which are planned, what comes before what, and nothing planned twice. |
| RenderPlan.Renderer.AddNode | engine/engine_core.c:217-266 | The recursion over mutable links extends plan and pruned lists exactly as one visit of the graph as it was, and every operation it adds has the connections of its node as inputs. |
| RenderPlan.Renderer.AddInputs | engine/engine_core.c:222-227 | Inputs are visited in slot order, empty slots skipped. |
| RenderPlan.Renderer.AddMix | engine/engine_core.c:229-246 | Mix sources are visited in list order while finished ones are unlinked. |
| RenderPlan.Renderer.Unlink | engine/engine_core.c:236-239 | One source leaves its list; all chains are right again. |
| RenderPlan.AudioRenderPlan.Reserve | engine/engine_core.c:188-206 | Room is made by doubling and the operations stay. |
| RenderPlan.AudioRenderPlan.Contains | engine/engine_core.c:208-215 | Whether the node is in the plan. |
| RenderPlan.AudioRenderPlan.Append | engine/engine_core.c:252-265 | One operation more, with the node's inputs. |
| RenderPlan.NothingToDo | engine/engine_core.c:218-220 | A node that is finished or already planned changes neither plan nor lists. |
| MixLists.UnlinkKeeps | engine/engine_core.c:236-239 | After unlinking a source every mix chain is right and no two share a node. |
| NodeList.NodeGraph.Add | engine/ctx.c:27-43 | The node is last in the list. |
| NodeList.NodeGraph.AddBefore | engine/ctx.c:45-89 | The node is right before the target, or last if the target is absent. |
| NodeList.InsertAt | engine/ctx.c:45-89 | The list with a node inserted before a target at position k is the list cut there around the node. |
| RbTree.InsertCorrect | lang/btree_map.c:161-201 | One insertion keeps search order, black root, no red node under a red one and equal black heights, updates exactly one key and returns its old value. |
| RbTree.EveryRun | lang/btree_map.c:161-201 | After every sequence of insertions into an empty tree all invariants hold, the contents are those of the map, and the height is at most twice the binary logarithm of the size plus one. |
| RbTree.HeightLogarithmic | lang/btree_map.c:161-201 | 2^height is at most (size + 1) squared. |
| RbTree.HeightIsLongest | lang/btree_map.c:161-201 | The height is the number of nodes on the longest path. |
| RbTree.SearchCorrect | lang/btree_map.c:60-72 | The search ends at a node exactly for the keys of the map, and that node holds the map's value. |
| StringKeys.LessAt | lang/btree_map.c:60-72 | Keys are ordered by the first character in which they differ, or by the end of the shorter one. |
| RbTree.FixRedBlack | lang/btree_map.c:121-158 | The repair of a red leaf under a possibly red parent ends in a red-black tree. |
| RbTree.FixKeepsBindings | lang/btree_map.c:121-158 | The repair changes no binding and no order. |
| RbTree.DescendLocated | lang/btree_map.c:165-182 | The walk to a key's place keeps the tree and brackets the key by what is left and right of it. |
| RbTree.FlatRotated | lang/btree_map.c:75-118 | The rotations of a repair keep the order of the bindings. |
| RbStore.LeftAssigned | lang/btree_map.c:75-95 | The pointer assignments of `rotate_left` turn a heap holding a tree into one holding the rotated tree, parent links included. |
| RbStore.RightAssigned | lang/btree_map.c:98-118 | The same for `rotate_right`. |
| RbStore.Attach | lang/btree_map.c:184-196 | Linking a new leaf at an empty place gives the tree with the leaf. |
| RbStore.AtParent | lang/btree_map.c:121-158 | In a heap holding a tree the parent pointer and the child links around a place are those of the tree. |
| BtreeMap.BTreeMap.RotateLeft | lang/btree_map.c:75-95 | On parent-pointer nodes: the heap then holds the tree with the subtree rotated. |
| BtreeMap.BTreeMap.RotateRight | lang/btree_map.c:98-118 | The mirror image. |
| BtreeMap.BTreeMap.InsertFixup | lang/btree_map.c:121-158 | The loop leaves the heap holding `Fix` of the tree, the root black. |
| BtreeMap.BTreeMap.Insert | lang/btree_map.c:161-201 | The object stays valid, holds the updated map, counts its keys and returns the old value or NULL. |
| BtreeMap.BTreeMap.Search | lang/btree_map.c:60-72 | The node with the key, or none exactly if the map has none. |
| BtreeMap.BTreeMap.Get | lang/btree_map.c:204-210 | The map's value, or NULL. |
| BtreeMap.BTreeMap.Len | lang/btree_map.c:364-364 | The number of keys of the map. |
| RbRemoval.RemoveCorrect | lang/btree_map.c:316-361 | Removing a key from a red-black tree removes its binding and no other, reports whether it was there, and keeps search order, a black root and no red node under a red one; equal black heights are kept if and only if the node spliced out is red, has a child, or is the whole tree. |
| RbRemoval.SplicedColours | lang/btree_map.c:236-313 | The repair restores equal black heights exactly under that condition: where there is no child it stops at once. |
| RbRemoval.RemovedFlat | lang/btree_map.c:316-361 | The bindings after a removal are those before without the key's, the successor moved or not. |
| RbRemoval.LostBlack | lang/btree_map.c:236-313 | Removing "a" from a black root with two black leaves leaves unequal black heights. |
| HashTable.HashTable.Set | lang/ht.c:268-285 | The map gains the binding, whatever doubling happens; a NULL value is refused and changes nothing. |
| HashTable.HashTable.SetHash | lang/ht.c:287-309 | The same for the entry point that is given the key's own hash. |
| HashTable.HashTable.GetHash | lang/ht.c:156-178 | The map's value, or NULL; the probe loop ends. |
| HashTable.HashTable.Get | lang/ht.c:179-187 | The same from the text of the key. |
| HashTable.HashTable.Expand | lang/ht.c:239-266 | The capacity doubles and no binding changes. |
| HashTable.HashTable.Reinit | lang/ht.c:115-133 | The table is empty and keeps its capacity. |
| HashTable.HashString | lang/common.c:6-14 | The loop's hash of the first bytes; over the whole length it is the hash of the key. |
| HashTable.HashKey | lang/common.c:18-25 | The hash up to the terminator, the same for every text that begins with the key and a terminator. |
| Bits.XorBit | lang/common.c:6-25 | Each bit of the exclusive or is set if and only if the two bits differ. |
| HashTable.SetEntry | lang/ht.c:190-225 | In an array with a free slot the key ends up bound to the value, every other binding stays, and it is told whether the key is new. |
| HashTable.Iterator.Next | lang/ht.c:321-339 | The next used slot and the rest, or none at the end. |
| HashTable.Iterate | lang/ht.c:313-339 | A full iteration yields every binding of the map exactly once and nothing else. |
| ProbeTable.ProbeEnds | lang/ht.c:156-178 | With a free slot every probe reaches its key or a free slot before it has gone around. |
| ProbeTable.HashIsFnv | lang/common.c:6-25 | The hash is FNV-1a in 64 bits: the offset for no bytes, and for one byte more the exclusive or with it times the prime, modulo 2^64. |
| ProbeTable.StopFree | lang/ht.c:156-178 | A probe that stops at a free slot proves the key absent. |
| ProbeTable.SetHolds | lang/ht.c:190-225 | Writing a binding where the probe stops keeps the array holding the updated map, all probe paths included. |
| ProbeTable.UsedOnce | lang/ht.c:321-339 | The used slots from any place on have different keys. |
| ProbeTable.IterationIsMap | lang/ht.c:321-339 | A slot is met by iteration exactly if the map binds its key to its value. |
| NameAgreement.RenameAgrees | tools/ylc_lsp_server.c:1940-2195 | For every tree and use n in it: the renaming traversal reports n for d if and only if the search with the cursor on n resolves to d. |
| NameAgreement.ReferencesAreRename | tools/ylc_lsp_server.c:2206-2465 | Find-references with declarations and rename collect the same nodes in the same order. |
| NameAgreement.ReferencesAgree | tools/ylc_lsp_server.c:2206-2465 | Find-references lists a use for d, with the declaration or without, if and only if go-to-definition on it leads to d. |
| NameAgreement.WithoutDeclaration | tools/ylc_lsp_server.c:2206-2465 | Without the declaration, find-references lists exactly the uses among the nodes that a rename changes. |
| LetBindings.LetInDeclaration | tools/ylc_lsp_server.c:1694-1739 | On the name a let binds, anywhere in a document, the search answers with the let; rename, and find-references with the declaration or without, started there reach every use the let binds if and only if its `in` part has no use of the name, and reach none of the uses there, which all belong to the name itself. |
| LetBindings.FreeReported | tools/ylc_lsp_server.c:2091-2195 | A use that nothing inside a tree binds is reported for a definition if and only if its name stands for that definition in the scope around the tree. |
| LetBindings.WalkedDecides | tools/ylc_lsp_server.c:1765-1863 | What is reported and found for a node of a part of a document is what the part alone, with the scope it is walked in, reports and finds. |
| LetBindings.UseLeftOut | tools/ylc_lsp_server.c:2052-2089 | In `let x = e in x` a rename started on the first x edits the let only, and the search on the second x answers the first. |
| UseResolution.UseInBody | tools/ylc_lsp_server.c:1865-1904 | In a body anywhere in a document, a use that nothing inside its statement binds leads to the last statement before it that declares the name: to the let or type declaration, or to what an import brings in, `import *` included; if there is none, to what the name means around the body. Rename reports it for that definition only. |
| UseResolution.UseInLet | tools/ylc_lsp_server.c:1694-1739 | A use in the `in` part leads to the last identifier of its name in the pattern bound, one in the expression of a named function to the let, any other to what the name means around the let. |
| UseResolution.UseInBodyOfLambda | tools/ylc_lsp_server.c:1651-1675 | A use in a function's body leads to the last parameter that declares its name, or to what the name means around the function. |
| UseResolution.UseInDefault | tools/ylc_lsp_server.c:1651-1675 | A use in a default value sees exactly the parameters before its own. |
| UseResolution.UseInBranch | tools/ylc_lsp_server.c:1741-1763 | A use in a branch of a match leads to the last identifier of its name in the branch's pattern, or to what the name means around the match. |
| UseResolution.UseOfMember | tools/ylc_lsp_server.c:1620-1649 | On a member of a record the answer is the first statement of that name in the module that the record stands for, or nothing. |
| UseResolution.UnboundUse | tools/ylc_lsp_server.c:1765-1863 | A use that nothing in the document binds leads nowhere and is reported for no definition. |
| UseResolution.OnParameter | tools/ylc_lsp_server.c:1651-1675 | On a parameter, or a name inside its pattern, the search answers with that name, and rename reports it for that definition only. |
| UseResolution.OnBranchName | tools/ylc_lsp_server.c:1741-1763 | The same for a name in the pattern of a match branch. |
| UseResolution.OnLetName | tools/ylc_lsp_server.c:1694-1739 | The same for a name inside the pattern of a let; where the name is the whole pattern the search answers with the let. |
| UseResolution.OnLet | tools/ylc_lsp_server.c:1694-1739 | On a let or type declaration itself the search answers with it, and rename reports it for that definition only. |
| UseResolution.OnImport | tools/ylc_lsp_server.c:1765-1863 | On the name of an import the search answers with the first statement of the module, or the module, or the import itself. |
| UseResolution.FreeUse | tools/ylc_lsp_server.c:1765-1863 | A use that nothing inside a tree binds leads to what its name means in the scope around the tree. |
| Declarations.StmtMeans | tools/ylc_lsp_server.c:1865-1889 | A statement makes known what it declares, read off the tree, and leaves every other name as it was. |
| Declarations.ExportsMean | tools/ylc_lsp_server.c:1444-1497 | Of two statements of a module with one name, `import *` makes the last one known. |
| Declarations.MemberMeans | tools/ylc_lsp_server.c:1394-1442 | Of two statements of a module with one name, looking up a member finds the first one. |
| Declarations.ModuleMeans | tools/ylc_lsp_server.c:1589-1618 | A chain of members stands for the module of the first statement of each name. |
| Declarations.PatternMeans | tools/ylc_lsp_server.c:1499-1537 | A pattern makes its last identifier of a name known, `_` excepted, and leaves every other name as it was. |
| Declarations.LastDeclaredAt | tools/ylc_lsp_server.c:1891-1904 | The declaration in force after some statements is that of a statement after which none declares the name. |
| LanguageServer.DefinitionSearch.ResolveExpr | tools/ylc_lsp_server.c:1765-1863 | On every tree the resolver stops with the definition `ResolveExpr` finds, and tells whether it found the cursor. |
| LanguageServer.DefinitionSearch.ResolveLet | tools/ylc_lsp_server.c:1694-1739 | The let case, its two kinds of scope. |
| LanguageServer.DefinitionSearch.ResolveLambda | tools/ylc_lsp_server.c:1651-1675 | The lambda case, defaults before parameters. |
| LanguageServer.DefinitionSearch.ResolveMatch | tools/ylc_lsp_server.c:1741-1763 | The match case, each branch in its own scope. |
| LanguageServer.DefinitionSearch.TargetInPattern | tools/ylc_lsp_server.c:1539-1570 | The cursor is found in a pattern exactly if a name of it is the target. |
| LanguageServer.RenameCollect.CollectExpr | tools/ylc_lsp_server.c:2091-2195 | The edits appended are those of `RenameExpr`. |
| LanguageServer.RenameCollect.CollectLet | tools/ylc_lsp_server.c:2052-2089 | The let case. |
| LanguageServer.RenameCollect.PushPatternBindings | tools/ylc_lsp_server.c:1940-1983 | The scope and the edits of a pattern. |
| LanguageServer.ReferenceCollect.CollectExpr | tools/ylc_lsp_server.c:2360-2465 | The locations appended are those of `ReferenceExpr`. |
| LanguageServer.ReferenceCollect.CollectLet | tools/ylc_lsp_server.c:2320-2358 | The let case. |
| Scopes.Lookup | tools/ylc_lsp_server.c:1243-1251 | The innermost binding of the name. |
| TableRows.SplitRowLine | tools/md_tablefmt.py:149-163 | For stripped cells without bare pipes, splitting the rendered row gives the cells back, for every alignment, width and padding. |
| TableRows.SplitDelimLine | tools/md_tablefmt.py:165-178 | The delimiter row splits into its parts, and parsing them gives the alignments back. |
| TableRows.SplitFramed | tools/md_tablefmt.py:89-97 | Cells come back from any framing in pipes and blanks. |
| TableRows.SplitRow | tools/md_tablefmt.py:89-97 | A row always has at least one cell. |
| TableRows.SplitRowCells | tools/md_tablefmt.py:89-97 | The cells of any line are stripped and hold no bare pipe, so they can be rendered and split again. |
| TableText.StripParts | tools/md_tablefmt.py:89-97 | Stripping takes blanks off both ends and nothing else. |
| TableText.JoinSplit | tools/md_tablefmt.py:89-97 | Joining the pieces of a split by bare pipes gives the text back. |
| TableText.SplitJoin | tools/md_tablefmt.py:89-97 | Splitting a join of pieces without pipes or backslashes gives the pieces back. |
| TableFormat.DelimRowIsPattern | tools/md_tablefmt.py:100-107 | A line counts as a delimiter row exactly if the regular expression matches it. |
| TableFormat.AlignTable | tools/md_tablefmt.py:114-182 | Rendering fails exactly if a row has another number of cells than the header; what it renders is `TableLayout.AlignedTable`. |
| TableLayout.AlignedTable | tools/md_tablefmt.py:114-182 | Each text stands on its side in a column as wide as the longest text of the column, rows and delimiter row framed in pipes, the dashes with colons on the sides of the alignment. |
| TableLayout.ApplyJustified | tools/md_tablefmt.py:149-158 | A rendered cell is two blanks wider on each side than its column: a left text starts there, a right text ends there, and in a centred one the blanks differ by at most one, an odd one left for an odd width and right for an even one. |
| TableLayout.WidestIsLongest | tools/md_tablefmt.py:109-111 | The width of a column is the length of its longest text, reached by one of them. |
| TableLayout.RowRendered | tools/md_tablefmt.py:160-163 | A row's line holds the cells in columns, the blanks at the end of the last one cut. |
| TableLayout.ColumnsLineUp | tools/md_tablefmt.py:160-178 | Two rows of a table have every column at the same place; the delimiter row has it there if and only if every column before it is at least three characters wide. |
| TableLayout.FormatsTable | tools/md_tablefmt.py:207-232 | A header line with a pipe before a delimiter row is formatted, with the lines after them that start with a pipe, as the table of their cells, with the alignments the delimiter row says if it has a cell for every column and all left otherwise. |
| TableLayout.OtherLinesStay | tools/md_tablefmt.py:205-236 | Formatting keeps the number of lines, and every line without a pipe that is no delimiter row. |
| TableLayout.NoTableStays | tools/md_tablefmt.py:205-236 | Lines of which none is a header before a delimiter row stay as they are. |
| TableLayout.CellsOfLine | tools/md_tablefmt.py:89-97 | The cells of a line are the stripped pieces between its bare pipes, an outer pipe on each side left out. |
| TableLayout.LineOfCells | tools/md_tablefmt.py:89-97 | A line made of pieces without bare pipes, framed or not, has these pieces, stripped, as its cells. |
| TableLayout.BlanksAre | tools/md_tablefmt.py:89-97 | What is stripped are the 29 blanks that Python strips, and nothing else. |
| TableFormat.FormatTwice | tools/md_tablefmt.py:195-236 | Whenever formatting a list of lines succeeds, formatting the result changes nothing if and only if no table is followed at once by another one. |
| TableFormat.AdjacentTables | tools/md_tablefmt.py:195-236 | Two tables in a row, the second header without a leading pipe: formatting twice differs from formatting once. |
| TableFormat.Swallowed | tools/md_tablefmt.py:222-232 | A formatted table right behind another one is taken for its body the next time, and its delimiter row changes. |
| TableDocument.FormatTextTwice | tools/md_tablefmt.py:195-236 | The same if and only if for a whole text, with its line breaks and its last newline. |
| TableLayout.FormatOfLines | tools/md_tablefmt.py:205-236 | A text of lines is formatted as its lines are, and ends with a newline if and only if it did. |
| TableLayout.TextStays | tools/md_tablefmt.py:205-236 | A text in which no line with a pipe stands before a delimiter row stays as it is. |
| TableLayout.LineEnds | tools/md_tablefmt.py:205-206 | A line ends at each of the eleven line boundaries, a carriage return and a line feed together being one. |
| TableDocument.LinesBack | tools/md_tablefmt.py:205-236 | Lines come back from their join, except an empty last line without a newline of its own. |
| TableDocument.FormatDocument | tools/md_tablefmt.py:205-236 | The loop returns the formatted lines, or fails where a table cannot be rendered. |
| TableDocument.ReadBody | tools/md_tablefmt.py:222-226 | The inner loop splits the rows of the body and stops after them. |
| TableDocument.DelimLineParts | tools/md_tablefmt.py:165-178 | The loop yields the parts of the delimiter row. |

## Left out

The backend and the viewer

- CompilationPreservesMeaning: the depth of nested calls is a parameter of both semantics, and running out of it is an outcome of its own; memory for a call stack is not modelled.
- CompilationPreservesMeaning: host functions answer from their name, arguments and the trace so far; they do not write the module's globals.
- CompilationPreservesMeaning: asks that a function called has an index and that a specialised name without its function finds no other one; the fallback to the name could. NamedCompilation asks for names of their own instead.
- CastCorrect: a cast of a 64-bit unsigned integer to a float is emitted with the signed conversion, and that is the meaning given to the cast.
- CastCorrect: floating-point operations and conversions are one uninterpreted parameter used by both sides; no MIR type is passed as f32, so the f32 rows of the table of arithmetic opcodes are never used by well-typed code.
- ReturnsWithEnv: the type of `$env` is compared with the first parameter type as a whole, where the source compares the parts that `types_equal` looks at.
- CompilesExactly: asks for types that agree and for values that are given by a parameter or an instruction; what the backend does with other MIR is not stated.
- LowerMirToWasm: module parts of 2^32 bytes and more are outside the model; the cut of sizes to 32 bits is stated.
- ModuleRoundTrip: names are compared as bytes, before the viewer decodes UTF-8, and instructions as shown values rather than as line text.
- ParseWasm: reading a value type or a kind past the end of the bytes counts as a failure, where the viewer goes on with an undefined value.
- LowerBlocks: no supported terminator has a successor, so the recursion over blocks is the order of the blocks.
- CFG terminators, phi, extract, construct and coroutine lowering, which are error stubs; function values lower to the placeholder 0, as in the source.
- The front end, the import prelude text, error messages and the formatting of the module as text.

The scheduler and the audio thread

- Every push, collection, done-check with call, cancellation and audio event is one atomic step; the unsynchronised reads between them, clocks that wrap and failing allocation are not modelled.
- Wakeup: a callback is given by what it does before it returns, with delays in whole samples; timers, file descriptors and wake-up signals are left out.
- CancelTask: a task handle is its index, the search for a handle is left out.
- PlayPatternStart: whether it is called on the scheduler thread is a parameter, since the current task and the dispatch clock belong to that thread; the delay computed by multiplying the quantum with the rate is given in samples.
- Wakeup: callbacks without a task, as `defer_quant` makes them, fire and push nothing.
- NoDrift: seconds and the fraction carried are real numbers; what the additions of doubles round away is not modelled.
- DrainBounded: asks for callbacks that wait at least one sample and fork nothing; a callback that waits nothing can run for ever.
- AudioCancelSafety: asks for a place in the table of 256 cancelled tasks.
- ExactlyOnce: asks that messages waiting and events held stay within 256; NothingLost shows that otherwise a message is lost.
- MachineExactlyOnce: the message is one that came into the ring; what `push_msg` refuses at a full ring never does.
- OffsetInside: for a block without frames no offset is inside it.
- ScalarPost: a connected inlet node without a buffer is not written; the second phase of the source does not check for one.
- RunPre: of the effects on nodes only scalar and trigger events are modelled, applied to the list of active events after it is complete; connecting, adding and removing nodes and the deferred second queue are left out.
- The buffer size is the 256 of platforms other than macOS, the lookahead 32 buffers.

The render plan

- Rebuild: the graph is acyclic, mix lists are disjoint and nodes are added once, as `play_node` and mixing into a bus do; executing the plan and the state pointer in an operation are left out.
- Rebuild: growing the operations never fails.

The indexes

- RemoveCorrect: removal is modelled on trees as values, for one key of a red-black tree; the pointer assignments of `transplant` and the repair of trees that are no longer red-black are left out.
- Insert: a key is a sequence of characters without terminator; copying and freeing keys and clearing a map are left out.
- SetHash: called with the key's own hash; allocators and destruction of a table are left out.

The tools

- RenameAgrees: about uses of names; positions, ranges, documents and JSON are left out, so every node counts as being in the current document.
- ReferencesAgree: the loader of imported modules is a parameter.
- FormatTextTwice: for aligned tables; the output as tab-separated blocks and the command line are left out.
- SplitRowLine: a row without cells splits into one empty cell, so rows have at least one.
