# Models and proofs for the Limceron compiler and runtime

Dafny models of the parts of Limceron where correctness is hardest to see, and
proofs about them. `dafny verify dfyconfig.toml` checks the whole project.
Nothing was executed.

## What is modelled

**Intermediate representation** (`Ir`, `IrLaws`). SSA functions over 64-bit
integers, booleans and stack pointers, with an interpreter that walks the
control-flow graph. Arithmetic wraps, division truncates and traps. Host calls
are an uninterpreted function of the calls already made, guarded by the three
budgets. Phi values are copied at once, as SSA means, or in order, as lowered
code does.

**WebAssembly back end** (`Wasm`, `WasmSites`, `WasmEmit`, `WasmCorrect`,
`WasmEdges`, `WasmTypes`, `WasmBudget`, `WasmData`, `WasmMemory`). The emitter
is an object that appends tokens. Its output is parsed and run by an interpreter
of structured WebAssembly. The main results are `EmittedFunctionCorrect` (for
every supported function the text does what the graph does with phis copied in
order), `OrderIrrelevantIff` and `NoCopyNeededIff` (exactly when that is what
SSA means, edge by edge), `SwapLoopMiscompiled` (a loop where it is not),
`BudgetsRespected` and `ModuleWithinBudget` (about every run of every emitted
text, whether or not the graph is defined), `DataSegmentServes` for string
constants, `EverySiteIff` for host-call sites, and `MemoryOkIff` for when
strings, host-call slabs and heap fit the one page of memory.

**ARM64 back end** (`Arm64`, `Arm64Alloc`, `Arm64Scan`, `Arm64FirstFit`,
`Arm64RegAlloc`, `Arm64Emit`, `Arm64Layout`, `Arm64Spill`, `Arm64Flow`,
`Arm64Sim`, `Arm64Steps`, `Arm64Correct`, `Arm64Run`, `Arm64Forward`,
`Arm64Unfold`, `Arm64Loops`, `Arm64Backward`). Live ranges, linear scan with
spilling and eviction, frame layout, and the lowering of each instruction, on a
machine with registers and a frame. Live ranges follow the text, so in a loop a
register may be reused too early. `Arm64Flow` says which values are stale where:
a data-flow condition on the allocated function, checked block by block and edge
by edge. The main results are `LinearScanCorrect`, `SpillsIffCrowded`,
`FrameCovers`, `ContextGood`, `LoweredFunctionCorrect` for every function that
reads no stale value and executes no alloca again once a pointer was stored, and
`ForwardFunctionCorrect` for all functions without backward branches.
`LoopLowerable` is a loop that meets the condition; `InvariantLost` and
`BackwardBranchMiscompiled` are miscompiled ones that do not.

**JSON** (`Json`, `JsonParser`, `JsonRound`, `JsonGrammar`, `JsonTrees`,
`JsonPrinted`, `Bytes`). The accepted language as functions on the remaining
input, the parser with its cursor and the printer with its buffer proved against
them. Beside them stands the grammar of RFC 8259 on its own, as syntax trees
with their spelling and meaning; `ParseExact` says that the parser returns a
value exactly for the spellings of trees that mean it. `ParsePrint` and
`PrintIsCanonical` are the round trips. Numbers are the exact values of finite
doubles. The two conversions of the C library are parameters. What is relied on
is stated in `ReadsIntegers`, `ReadsBack` and `ReadsDoubles`; `LibraryExists`
shows that it can be met.

**Channels** (`Channel`, `ChannelDelivery`, `ChannelRing`), **worker pool**
(`ThreadPool`, `ThreadPoolObjects`), **green threads** (`GreenThreads`,
`GreenThreadObjects`). Each is a transition system with one step per critical
section. A condition variable is the set of threads asleep on it and the set
woken but not yet running; spurious wake-ups are steps. The theorems are about
every sequence of enabled steps. The ring, the linked queues and the counters
are objects whose methods are tied to those steps. `FirstInFirstOut` and
`SentOnce` say of every run of a channel which items its receivers are handed
and what becomes of each item sent.

**Type unification** (`Unify`, `UnifyTable`). The binding table, chained
resolution and the coercion between integers and floats. `SucceedsIffSolvable`
is soundness and completeness over named opaque types, `SuccessIsSolvable`
soundness without that condition. `CompleteIffOneName` says for which sets of
opaque names completeness also holds against unnamed types: those with at most
one name.

**Supervisor** (`Supervisor`, `SupervisorRuns`, `SupervisorStrategies`,
`SupervisorObject`). `ReportCalls` and `ReportChildren` say which callbacks each
strategy makes, in which order, and what becomes of every child; `EscalatesIff`
and `AlternatesIff` are about whole runs.

**Path patterns** (`Glob`), **event store** (`EventStore`), **entropy tracker**
(`Entropy`), **text chunks** (`Chunker`). Ring buffers (`Rings`) are compared
with the plain history of everything recorded. Clocks are parameters.

## Where the code and its comments differ

The models follow the code.

- `runtime/channel.h` says that a non-blocking receive fails on a closed
  channel; the code still delivers what is stored (`runtime/channel.c:174-195`).
- `runtime/channel.c:9-11` promises a hand-over to every unbuffered sender; with
  two senders a wake-up can be lost (`Channel.StallFreeIff`), and a close
  during the hand-over also returns success.
- `runtime/supervisor.c:46-49` says that entries outside the window are pruned;
  the code only counts.
- `runtime/capability_fence.c:80-90`: a `**` followed by a slash does not match
  when nothing is left of the subject.
- `src/ir_emit_wasm.c:1443-1451` says that every host call has a site; a name
  without a namespace and a 65th name have none, and their calls yield -1.
- `src/ir_emit_arm64.c:214` says that the register with the latest expiry is
  spilled; a new value that ends before it is spilled itself
  (`Arm64Spill.PlaceSpills`).
- `src/ir_emit_arm64.c:446` sizes the frame for the slots, but the prologue
  leaves x29 at the lowest address of the frame and every slot lies below it
  (`Arm64Spill.FrameCovers`, `Arm64Spill.NoSlotReserved`).
- `src/ir_emit_wasm.c:99-100` says that the string data is bounded by the base of
  the host-call slabs; nothing bounds it, and of the 64 call sites the table
  holds at most 52 fit the page (`WasmMemory.MemoryOkIff`).
- `runtime/kb.c:237-280`: a chunk may be one byte longer than the chunk size, and
  for some overlaps a chunk brings no new text (`Chunker.EndsGrowIff`).
- `src/ir_emit_arm64.c:741-748` says that predecessors resolve phis; no moves are
  emitted, so phis are outside the ARM64 result.

## Model

| member | source | states |
|---|---|---|
| IrLaws.WrapsModulo | src/ir_emit_wasm.c:1233-1245 | Wrapping changes a value by a multiple of 2^64 or 2^32, and by nothing when it fits |
| IrLaws.DivisionTruncates | src/ir_emit_wasm.c:1233-1245 | Quotient and remainder rebuild the dividend; the remainder is smaller than the divisor and has the sign of the dividend |
| IrLaws.DivisionUnique | src/ir_emit_wasm.c:1233-1245 | and no other quotient and remainder do |
| WasmEmit.EmitCtx.Register | src/ir_emit_wasm.c:338-372 | The name is added if and only if it is new, has a namespace and fewer than 64 sites exist; no name is there twice, earlier sites stay, and the answer is the index of the site or -1 |
| WasmEmit.EmitCtx.PreregisterHostCalls | src/ir_emit_wasm.c:388-401 | The pre-pass registers the names of all host calls of all functions, in text order |
| WasmSites.AddSiteExact | src/ir_emit_wasm.c:338-372 | Registering keeps all names distinct and qualified, and adds exactly a new qualified name that finds room |
| WasmSites.EverySiteIff | src/ir_emit_wasm.c:388-401 | Every qualified name that is called has a site if and only if at most 64 different ones are called |
| WasmSites.HostNamed | src/ir_emit_wasm.c:388-401 | No host call of any block of any function is missed |
| WasmSites.HostCalled | src/ir_emit_wasm.c:388-401 | No name is registered that no host call has |
| WasmEmit.EmitCtx.FindBb | src/ir_emit_wasm.c:1159-1165 | The position of the first block with the id, or -1 exactly when there is none |
| WasmEmit.EmitCtx.FindIncoming | src/ir_emit_wasm.c:1174-1181 | The value a phi takes on the edge from a block: the first matching entry, -1 when there is none |
| WasmEmit.EmitCtx.EmitPhiAssignments | src/ir_emit_wasm.c:1167-1186 | The tokens appended are exactly the copies the phis of the target ask for on this edge, in phi order |
| WasmEmit.EmitCtx.EmitEdge | src/ir_emit_wasm.c:1934-1956 | Phi copies of the edge, then the block number, then the jump back to the dispatch loop |
| WasmEmit.EmitCtx.EmitFence32 | src/ir_emit_wasm.c:487-539 | The fence appended for a 32-bit counter: test, sentinel and return, or subtract; nothing at all for a zero charge |
| WasmEmit.EmitCtx.EmitFence64 | src/ir_emit_wasm.c:808-858 | The same fence for the 64-bit cost counter |
| WasmEmit.EmitCtx.EmitHostCall | src/ir_emit_wasm.c:1416-1468 | Entropy, token and cost fence in this order before the arguments, the call and the sign-extended result |
| WasmEmit.EmitCtx.EmitBranch | src/ir_emit_wasm.c:1934-1949 | Both arms of a conditional branch, each with the copies of its own edge |
| WasmEmit.EmitCtx.EmitInstruction | src/ir_emit_wasm.c:1192-2045 | Whatever follows, the tokens appended for an instruction followed by it are the tokens of the structured code of that instruction followed by it |
| WasmEmit.EmitCtx.EmitBlock | src/ir_emit_wasm.c:2097-2119 | All instructions of a block and, without a terminator, the step to the next block |
| WasmEmit.EmitCtx.EmitFunctionBody | src/ir_emit_wasm.c:2055-2138 | Loop, nested blocks, br_table, bodies and default result appended as one well-nested text: the flattened structured function |
| Wasm.ParseFlatten | src/ir_emit_wasm.c:2055-2138 | The emitted tokens parse back to the structured code they came from: blocks, loops and conditionals are properly nested |
| WasmCorrect.SimFences | src/ir_emit_wasm.c:1453-1468 | The three fences together do to the counters what the budget rule says: pass with all charges made, or return the sentinel of the first that trips with the charges of those before it |
| WasmCorrect.SimEdge | src/ir_emit_wasm.c:1167-1186 | Leaving a block in the emitted code copies the phis in order and continues the loop with the right block number |
| WasmCorrect.SimInst | src/ir_emit_wasm.c:1192-2045 | The code of any supported instruction, run in a state that represents the SSA state, ends in one that represents the SSA state after it, or branches or returns as the instruction does |
| WasmCorrect.SimLevel | src/ir_emit_wasm.c:2074-2120 | From any nesting level, `br_table` reaches exactly the body of the block whose number is stored |
| WasmCorrect.EmittedFunctionCorrect | src/ir_emit_wasm.c:2055-2138 | For all supported functions, arguments, budgets and run lengths the emitted text returns what the control-flow graph returns, with the same host calls and the same budgets left, phis copied in order |
| WasmEdges.OrderIrrelevantIff | src/ir_emit_wasm.c:1167-1186 | In-order phi copies agree with parallel ones on all environments if and only if no copy reads a value an earlier copy of the edge changed |
| WasmEdges.NoCopyNeededIff | src/ir_emit_wasm.c:2105-2111 | Leaving out the copies on a fall-through edge is right for all environments if and only if every copy of the edge is from a value to itself |
| WasmEdges.EmittedMeansSsa | src/ir_emit_wasm.c:2055-2138 | When every edge is safe in that sense the emitted text means what SSA means, for every input and run length |
| WasmEdges.SwapIsLost | src/ir_emit_wasm.c:1167-1186 | On the back edge of a swapping loop the in-order copies lose one of the two values |
| WasmEdges.SwapLoopMiscompiled | src/ir_emit_wasm.c:1167-1186 | A concrete loop that swaps two values: SSA returns the one, the emitted text, parsed and run, the other |
| WasmTypes.FnCtx.ScanFunctionValues | src/ir_emit_wasm.c:1028-1092 | The locals declared are the parameters and every result that has a type, with the type of its instruction |
| WasmTypes.DeclaredIff | src/ir_emit_wasm.c:1028-1077 | A local is declared for exactly the parameters and results whose number is below 4096 |
| WasmTypes.CastConverts | src/ir_emit_wasm.c:1981-2002 | Whatever a cast is from, the code leaves a value of the width of its type: the low 32 bits, the sign-extended value, or the value itself |
| WasmTypes.NoValue | src/ir_emit_wasm.c:1127-1147 | A missing operand reads as zero and a missing result is dropped, without changing a local |
| WasmTypes.SsaIsSupported | src/ir_emit_wasm.c:1028-1125 | Every well-typed single-assignment function gets a local of the right type for each value it uses, so the correctness result applies to it |
| WasmTypes.ModuleIsSupported | src/ir_emit_wasm.c:388-401 | With at most 64 different qualified names called, every single-assignment function of a module meets the premise of the correctness result with the sites of the pre-pass |
| WasmBudget.RunAudited | src/ir_emit_wasm.c:487-539 | Over every run of the graph the counters are non-negative and equal the initial budget minus the charges of the calls dispatched; a refused call explains what else is missing |
| WasmBudget.BudgetsRespected | src/ir_emit_wasm.c:487-859 | For every function, started with any locals, memory and log, after any number of blocks and however it ends, rejected and unfinished runs included: no counter is negative, the charges of the dispatched calls stay within all three budgets, and the counters are the budgets less these charges, except that a call refused with -9 or -10, or with an ill-typed argument, keeps the charges of the fences it passed |
| WasmBudget.ModuleWithinBudget | src/ir_emit_wasm.c:423-428 | Over any sequence of entries into any functions of a module, what is left and all charges of dispatched calls together never exceed the declared budgets |
| WasmBudget.CallsWithinBudget | src/ir_emit_wasm.c:418-428 | Over any sequence of entries the numbers of classifications and chats dispatched fit all three declared budgets, at 1 and 4 bits, 100 and 1000 tokens, 500 and 30000 micro-dollars each |
| WasmBudget.RefusalExplained | src/ir_emit_wasm.c:487-859 | Which fence tripped follows from the error and the counters: entropy first (-9), then tokens, then cost (-10), the earlier charges kept |
| WasmBudget.RefusedCallIsCharged | src/ir_emit_wasm.c:1453-1468 | A refused call has been charged, although nothing was dispatched, if and only if it reports -10, that is, if and only if the entropy sufficed |
| WasmData.StringTable.Intern | src/ir_emit_wasm.c:290-327 | A known string only gives its offset; a new one is appended while there is room; otherwise the table is unchanged and the answer is the fallback |
| WasmData.StringTable.PreIntern | src/ir_emit_wasm.c:2257-2270 | All string constants of the module are in the table before bodies are emitted |
| WasmData.EveryStringInternedIff | src/ir_emit_wasm.c:290-327 | Every given string has an entry if and only if at most 512 distinct strings were given |
| WasmData.OffsetsIdentifyStrings | src/ir_emit_wasm.c:290-327 | Equal strings share an offset, distinct strings get different ones with disjoint ranges |
| WasmData.StringTable.OrderByOffset | src/ir_emit_wasm.c:2202-2215 | The order is a permutation of the entries, ascending by offset |
| WasmData.StringTable.InsertKey | src/ir_emit_wasm.c:2207-2215 | One round of the insertion sort keeps a permutation and sorts one entry more |
| WasmData.StringTable.EscapeBytes | src/ir_emit_wasm.c:259-274 | The escaped text reads back as the bytes |
| WasmData.UnescapeEscape | src/ir_emit_wasm.c:259-274 | Reading undoes escaping for every byte string |
| WasmData.StringTable.LengthPrefix | src/ir_emit_wasm.c:276-282 | The escaped four bytes read back as the little-endian length |
| WasmData.StringTable.EmitDataSegment | src/ir_emit_wasm.c:2198-2252 | Decoding the emitted literals gives the memory image of the table |
| WasmData.ImageHolds | src/ir_emit_wasm.c:2198-2252 | In the image each entry has its length at offset minus four and its bytes at its offset |
| WasmData.DataSegmentServes | src/ir_emit_wasm.c:2198-2252 | Whatever literals decode to the image, the address used for an interned string finds that string and its length in memory |
| WasmMemory.DataBelowScratchIff | src/ir_emit_wasm.c:85-104 | In a module with host calls no string entry overlaps a slab if and only if the strings, each with its length prefix and rounded up to eight, take at most 7168 bytes |
| WasmMemory.SlabsApart | src/ir_emit_wasm.c:366-368 | The slabs of different call sites are disjoint |
| WasmMemory.MemoryOkIff | src/ir_emit_wasm.c:2404-2421 | For all strings, numbers of call sites and heap cells: everything lies in the page without overlap if and only if the strings fit below the slabs and slabs and heap fit above, or, without host calls, strings and heap fit together; more than 52 sites never fit |
| WasmMemory.HeapLayout | src/ir_emit_wasm.c:2411-2421 | A sound memory gives the emitted functions the heap their correctness relies on |
| Arm64RegAlloc.RegAllocState.ComputeLiveRanges | src/ir_emit_arm64.c:58-159 | The recorded ranges are those of the specification: one per value from its definition to its last use in text order |
| Arm64Alloc.DefsExact | src/ir_emit_arm64.c:67-81 | For every instruction list: one range per defining instruction, in the order of the text, up to the limit |
| Arm64Alloc.EndsAtLastUse | src/ir_emit_arm64.c:107-159 | A range ends exactly at the last use of its value in the text, or at its definition when no use follows |
| Arm64Alloc.UseIsAlive | src/ir_emit_arm64.c:108-159 | A value used by instruction p has a range that reaches p |
| Arm64RegAlloc.RegAllocState.SortByFirst | src/ir_emit_arm64.c:175-187 | The in-place insertion sort gives the sorted ranges |
| Arm64Alloc.SortCorrect | src/ir_emit_arm64.c:175-187 | Sorting orders the ranges by start and neither loses nor invents one |
| Arm64RegAlloc.RegAllocState.ExpireOld | src/ir_emit_arm64.c:196-202 | Exactly the registers whose value ended before the start are freed |
| Arm64RegAlloc.RegAllocState.PlaceRange | src/ir_emit_arm64.c:192-247 | One round of the allocator is the specified placement: a free register, spill the new range, or evict the one that ends last |
| Arm64RegAlloc.RegAllocState.Assign | src/ir_emit_arm64.c:164-254 | The whole in-place allocation computes the specified placement and the spill area size |
| Arm64Scan.PlaceKeeps | src/ir_emit_arm64.c:192-247 | Placing a range keeps the invariant: registers in use hold placed ranges that are apart, slots are never handed out twice |
| Arm64Scan.LinearScanCorrect | src/ir_emit_arm64.c:164-254 | For every set of ranges with distinct values each ends in one register of x9-x15 or one slot of its own, and ranges that overlap never share a register, late evictions included |
| Arm64FirstFit.FirstFitCorrect | src/ir_emit_arm64.c:189-222 | While a register is free at every start, every value gets the first one that no value defined before it still holds, and nothing is spilled |
| Arm64FirstFit.SpillsIffCrowded | src/ir_emit_arm64.c:164-254 | For every set of ranges some value goes to the stack if and only if somewhere more than seven values are alive: the scan never spills needlessly |
| Arm64Spill.PlaceSpills | src/ir_emit_arm64.c:192-247 | A value is spilled exactly when every register holds a live one: the new value if it ends before the one that ends last, otherwise that one, whose register the new value takes |
| Arm64Spill.SpillsDense | src/ir_emit_arm64.c:224-253 | The spill area has eight bytes for each spilled value and no more |
| Arm64Emit.Arm64EmitCtx.Prescan | src/ir_emit_arm64.c:426-450 | Every alloca gets the next eight bytes below the spill area, up to 512, and the frame gets the specified size |
| Arm64Layout.SpillArea | src/ir_emit_arm64.c:246-254 | All spill slots lie in the area the frame layout reserves for them |
| Arm64Layout.SlotsDisjoint | src/ir_emit_arm64.c:426-450 | Alloca slots and spill slots are pairwise disjoint eight-byte ranges |
| Arm64Spill.FrameCovers | src/ir_emit_arm64.c:446-449 | Within the emitter's limits the frame size is a multiple of 16 that reaches every spill and alloca slot, and the least one: saved registers, eight bytes for each alloca and spilled value, the spill area rounded to 16 |
| Arm64Spill.NoSlotReserved | src/ir_emit_arm64.c:819-821 | No slot lies in the bytes the prologue reserves: x29 points to their start and every slot is below it |
| Arm64Layout.ContextGood | src/ir_emit_arm64.c:808-822 | Within the emitter's limits every value has a place of its own from its definition to its last use |
| Arm64.MovImm64Correct | src/ir_emit_arm64.c:389-420 | The move sequence chosen for any 64-bit constant leaves exactly that constant in the register |
| Arm64Emit.Arm64EmitCtx.LoadValue | src/ir_emit_arm64.c:294-349 | Parameter register first, then allocated register, otherwise a load from the spill slot into the scratch register |
| Arm64Emit.Arm64EmitCtx.StoreIfSpilled | src/ir_emit_arm64.c:366-371 | A result is stored exactly when its home is a spill slot |
| Arm64Emit.Arm64EmitCtx.EmitInst | src/ir_emit_arm64.c:456-806 | The code appended for an instruction is the specified lowering of that instruction |
| Arm64Emit.Arm64EmitCtx.EmitFunction | src/ir_emit_arm64.c:825-861 | A label and the instructions of every block in order, and an implicit return unless the last instruction returns |
| Arm64Steps.RemainderBySdiv | src/ir_emit_arm64.c:538-547 | `sdiv` then `msub` is the truncated remainder, the smallest integer by -1 included |
| Arm64Steps.LoadTwo | src/ir_emit_arm64.c:294-349 | Both operands can be read through x16 and x17 without disturbing each other or any value |
| Arm64Correct.SimPure | src/ir_emit_arm64.c:461-624 | The code of an arithmetic, comparison, logic, constant or cast instruction puts the SSA result in the home of the result and keeps every other value still needed |
| Arm64Correct.SimStore | src/ir_emit_arm64.c:662-678 | A store through a known slot or through a register changes the one cell and no value |
| Arm64Correct.SimNext | src/ir_emit_arm64.c:456-806 | The same for every instruction that continues with the next one, allocas and loads included |
| Arm64Run.LabelAt | src/ir_emit_arm64.c:825-840 | A branch to a block arrives at that block's label |
| Arm64Run.LoweredFunctionCorrect | src/ir_emit_arm64.c:808-861 | For every call-free, phi-free function with at most eight parameters and any branches, loops included, in which no instruction reads a value whose register was given to another since its definition and no alloca is executed again once a pointer was stored; for all arguments and register contents: what the graph returns is in x0 when the code halts |
| Arm64Flow.LocalsInLoops | src/ir_emit_arm64.c:426-450 | A function that stores no pointer may execute its allocas any number of times: its data-flow condition holds if and only if it holds without the clause about allocas |
| Arm64Forward.ForwardFunctionCorrect | src/ir_emit_arm64.c:808-861 | With forward branches only no such condition is needed |
| Arm64Forward.ForwardLowerable | src/ir_emit_arm64.c:108-159 | With forward branches only the live ranges keep every value until its last read |
| Arm64Loops.LoopLowerable | src/ir_emit_arm64.c:108-253 | A loop with a value defined before it and returned after it meets the condition |
| Arm64Loops.InvariantLost | src/ir_emit_arm64.c:108-253 | The same loop when the value is last read inside it: its register is reused before the backward branch, the graph means -7 and the code returns -1 |
| Arm64Loops.InvariantRefused | src/ir_emit_arm64.c:108-253 | Nothing makes that loop meet the condition |
| Arm64Backward.BackwardBranchMiscompiled | src/ir_emit_arm64.c:108-159 | With a branch to an earlier block a value's register can be reused too soon: a function that means 7 and whose code returns 9 |
| JsonParser.Parser.SkipWhitespace | runtime/json.c:33-43 | What is left is the input without its leading blanks, tabs and line ends |
| JsonParser.Parser.Consume | runtime/json.c:52-60 | The byte is consumed exactly when it is next after whitespace |
| JsonParser.Parser.MatchLiteral | runtime/json.c:62-68 | A literal is consumed exactly when the input starts with it |
| JsonParser.Parser.Hex4At | runtime/json.c:82-96 | The value of four hexadecimal digits, -1 exactly when one is not a digit |
| JsonParser.Parser.ParseUnicode | runtime/json.c:168-200 | A code point from one escape or a surrogate pair, and the input after it |
| JsonParser.Parser.ParseStringRaw | runtime/json.c:127-222 | Succeeds exactly on strings of the grammar, with the decoded bytes and the input after the closing quote |
| JsonParser.Parser.ScanNumber | runtime/json.c:241-275 | The length of the number at the cursor by the grammar of section 6 of RFC 8259, none where a part is malformed |
| JsonParser.Parser.ParseNumberHere | runtime/json.c:241-301 | The number the C library reads from the whole lexeme, and the input after it |
| JsonParser.Parser.ParseArray | runtime/json.c:307-344 | Succeeds exactly where the grammar has an array, with its items |
| JsonParser.Parser.StoreField | runtime/json.c:404-426 | An equal key keeps its place and takes the new value; a new key is appended |
| JsonParser.Parser.ParseObject | runtime/json.c:350-434 | Succeeds exactly where the grammar has an object, with the members stored one by one |
| JsonParser.Parser.ParseValueHere | runtime/json.c:440-479 | The parser accepts at the cursor exactly the specified language and leaves the cursor after the value |
| JsonParser.ParseText | runtime/json.c:485-504 | A value is returned exactly when the whole input is one value with whitespace around it |
| JsonGrammar.Hex4Iff | runtime/json.c:82-97 | Four bytes are read as a number if and only if they are its four hexadecimal digits, in any mixture of cases |
| JsonGrammar.UnicodeAnyCase | runtime/json.c:168-200 | Every code point outside the high surrogates is decoded from each spelling of its one or two escapes |
| JsonGrammar.StringIff | runtime/json.c:127-222 | For all inputs: a string is accepted if and only if it is the spelling of a sequence of grammar characters, and read as what they mean |
| JsonTrees.TreeReads | runtime/json.c:127-483 | Every spelling of every value, with whitespace before it and a delimiter or the end after it, is read as what it means |
| JsonTrees.ParseExact | runtime/json.c:127-508 | For every input and value: the parser returns the value if and only if the input spells a tree of RFC 8259 that means it, numbers as the C library reads them |
| JsonPrinted.DecimalMeans | runtime/json.c:777-786 | An integer is printed with its sign and exactly the digits of its value, without superfluous zeros |
| JsonPrinted.ShortestEscape | runtime/json.c:737-764 | No spelling of a byte is shorter than the one printed |
| JsonPrinted.PrintCompact | runtime/json.c:737-815 | What is printed is a spelling of the grammar with no whitespace in it |
| JsonParser.StrBuf.Append | runtime/json.c:710-725 | The contents grow by exactly the data, however often the buffer is enlarged, and stay NUL-terminated |
| JsonParser.StrBuf.StringifyString | runtime/json.c:737-764 | The quoted, escaped string is appended |
| JsonParser.StrBuf.StringifyValue | runtime/json.c:766-815 | The printed form of the value is appended |
| JsonParser.Stringify | runtime/json.c:817-826 | The text returned is the printed form of the value |
| JsonRound.StringRound | runtime/json.c:737-764 | Strings of arbitrary bytes come back unchanged from printing and parsing |
| JsonRound.NumberExtends | runtime/json.c:241-275 | A complete number is read as the same number when a delimiter follows |
| JsonRound.DecimalIsNumber | runtime/json.c:777-786 | Every integer printed in decimal is a number of the grammar |
| JsonRound.ParsePrint | runtime/json.c:485-826 | Parsing the printed form returns the value with the same key order and consumes all input, for every value with distinct keys whose numbers the C library reads back |
| JsonRound.PrintIsCanonical | runtime/json.c:485-826 | Printing a parsed value and parsing it again gives the same value, for every library that reads integers exactly and reads back whatever it has read and prints |
| JsonRound.LibraryExists | runtime/json.c:241-301 | Such libraries exist, also with fractions |
| JsonRound.LastValueWins | runtime/json.c:402-427 | The members stored have distinct keys, in the order of first appearance, each with the last value given |
| JsonRound.ParsedWellKeyed | runtime/json.c:350-434 | In every parsed value all objects, however deep, have distinct keys |
| JsonRound.ParsedWellRead | runtime/json.c:241-434 | and every number is one the library has read |
| JsonRound.PrintPlain | runtime/json.c:737-815 | The printed text holds no control character, so it is a C string |
| JsonRound.UnicodeRound | runtime/json.c:168-200 | The escape of every code point but a lone high surrogate decodes to that code point |
| JsonRound.HighSurrogateIff | runtime/json.c:178-194 | A high surrogate is accepted if and only if the escape of a low surrogate follows |
| JsonRound.Utf8Round | runtime/json.c:99-121 | The bytes produced are the UTF-8 form of the code point: decoding gives it back, and only ASCII yields bytes below 128 |
| Channel.DeliveryKept | runtime/channel.c:98-211 | Every critical section keeps: accepted items are the received ones followed by the stored ones, and after close nobody sleeps |
| Channel.StepKeeps | runtime/channel.c:98-211 | Every step, spurious wake-ups included, keeps delivery and the two wake-up invariants |
| Channel.ChannelSafe | runtime/channel.c:98-211 | In every interleaving the received items are a prefix of the accepted ones and the ring holds the rest, free slots and stored items are spoken for by woken threads while others sleep, and after close nobody stays asleep |
| Channel.NothingAfterClose | runtime/channel.c:98-114 | Once closed, whatever happens, nothing more is accepted and nothing received is lost |
| ChannelDelivery.GotIff | runtime/channel.c:98-211 | In every step an item is handed to a caller if and only if it is recorded as received, and otherwise nothing is |
| ChannelDelivery.OldestGiven | runtime/channel.c:139-199 | A receive gets an item exactly when one is stored, and it is the oldest accepted one that nobody has received |
| ChannelDelivery.TryRecvFailsIff | runtime/channel.c:174-195 | The non-blocking receive never sleeps and fails exactly when nothing is stored, closed or not |
| ChannelDelivery.ClosedIff | runtime/channel.c:201-211 | Only closing closes; it wakes every sleeper and leaves the stored items |
| ChannelDelivery.AcceptedIff | runtime/channel.c:98-137 | The item accepted is the one the caller passed, exactly when there is room on an open channel |
| ChannelDelivery.FirstInFirstOut | runtime/channel.c:98-199 | Over every run of a new channel the items handed to receivers are, in order, the first of the items senders passed in; the rest is stored |
| ChannelDelivery.SentOnce | runtime/channel.c:98-137 | Over every run and for every thread, the items it was told to send are, in order, those accepted or refused, once each, and the one it still waits with |
| Channel.RecvFailsIff | runtime/channel.c:139-155 | A blocking receive fails if and only if the channel is closed and every accepted item has been received; it sleeps exactly when open and drained |
| Channel.SendRefusedIff | runtime/channel.c:98-114 | A send is refused if and only if the channel is closed, and then accepts nothing |
| Channel.HandoffDone | runtime/channel.c:122-133 | An unbuffered send that returns while the channel is open has had its own item received |
| Channel.NotBothAsleep | runtime/channel.c:105-160 | With no woken thread left on an open buffered channel, senders and receivers never sleep at the same time |
| Channel.UnbufferedStalls | runtime/channel.c:122-162 | With two or more senders allowed at a time there is a run after which a sender sleeps beside a free slot and nobody will wake it |
| Channel.StallFreeIff | runtime/channel.c:122-162 | No run of an unbuffered channel with at most m senders at a time stalls, if and only if m is at most one |
| Channel.StallsIff | runtime/channel.c:122-162 | A receive on an unbuffered channel leads there if and only if its signal reaches a sender waiting for the hand-over while another sleeps |
| Channel.OneSenderNeverStalls | runtime/channel.c:122-162 | With one sender at a time no run of an unbuffered channel stalls |
| ChannelRing.LcnChannel.Put | runtime/channel.c:116-119 | The ring's contents grow by the item at the end |
| ChannelRing.LcnChannel.Take | runtime/channel.c:157-160 | The ring gives its oldest item and keeps the others in order |
| ChannelRing.LcnChannel.SendLocked | runtime/channel.c:98-133 | The critical section on the ring is the send step of the transition system |
| ChannelRing.LcnChannel.RecvLocked | runtime/channel.c:139-168 | The critical section on the ring is the receive step |
| ChannelRing.LcnChannel.TryRecv | runtime/channel.c:174-195 | The critical section on the ring is the non-blocking receive step |
| ChannelRing.LcnChannel.Close | runtime/channel.c:201-211 | The critical section on the ring is the close step |
| ChannelRing.LcnChannel.ResumeHandoff | runtime/channel.c:122-126 | A sender woken during the hand-over sleeps again or returns as the loop says |
| UnifyTable.LcnUnifyTable.FreshVar | src/l9_infer.c:83-93 | A new unbound variable, or nothing once there are 1024 |
| UnifyTable.LcnUnifyTable.ResolveType | src/l9_infer.c:104-112 | The loop terminates on every table and finds the end of the chain |
| UnifyTable.LcnUnifyTable.UnifyWith | src/l9_infer.c:114-151 | The new table and the answer are those of the specification |
| Unify.UnifyValid | src/l9_infer.c:114-151 | Every call keeps the chains of bindings acyclic |
| Unify.CompatibleIff | src/l9_infer.c:133-145 | Two literals go together, in either order, exactly when they have one kind, or are an integer and a float; opaque ones with a name each must have the same name |
| Unify.UnifyExact | src/l9_infer.c:114-151 | An assignment respects the table after a successful call if and only if it respected it before and makes the two types agree up to the coercion |
| Unify.FailureChangesNothing | src/l9_infer.c:131-151 | A failing call leaves the table unchanged and is about two literals |
| Unify.SucceedsIffSolvable | src/l9_infer.c:83-151 | After any sequence of fresh variables and unifications over named opaque types, all calls succeeded if and only if some assignment makes every pair agree |
| Unify.SuccessIsSolvable | src/l9_infer.c:83-151 | Success means solvable without any condition on names |
| Unify.CompleteIffOneName | src/l9_infer.c:83-151 | Success is solvability by any literals, unnamed ones included, for all sequences of calls over a set of opaque names, if and only if that set has at most one name |
| Unify.TwoNamesRefused | src/l9_infer.c:131-138 | For any two names: a variable unified with the one and then the other is refused although an unnamed opaque type goes with both |
| Unify.UnnamedOrderMatters | src/l9_infer.c:131-138 | Two names and an unnamed opaque type in turn: all calls succeed when the unnamed one comes first, one is refused when it comes second |
| ThreadPoolObjects.TaskQueue.Push | runtime/threads.c:76-91 | The linked queue grows by the task at its end |
| ThreadPoolObjects.TaskQueue.Pop | runtime/threads.c:93-104 | The front task is removed, the rest keeps its order, an empty queue gives nothing |
| ThreadPoolObjects.TaskQueue.Decide | runtime/threads.c:110-129 | Under the lock a worker takes the front task, leaves, or waits: the step of the transition system |
| ThreadPoolObjects.TaskQueue.DrainAll | runtime/threads.c:269-278 | The drain frees exactly what is queued |
| ThreadPool.PoolSafe | runtime/threads.c:110-241 | In every interleaving tasks start in enqueue order, each is with exactly one worker or complete with its own result, and no queued task waits while its wake-up is lost |
| ThreadPool.AwaitOwnResult | runtime/threads.c:231-247 | An await returns exactly when its task is complete, with that task's result |
| ThreadPool.AwaitEvents | runtime/threads.c:231-247 | An await is begun once, sleeps until its task is complete, can then always resume, and returns when it does |
| ThreadPool.NewIsOpen | runtime/threads.c:249-278 | Over every run of a new pool: shut down exactly by shutdown, emptied exactly by the drain |
| ThreadPool.ShutdownRunsAll | runtime/threads.c:249-278 | If nothing is enqueued after the last worker left, every spawned task has run exactly once when all workers have exited and the drain frees nothing |
| ThreadPool.QuietShutdownRunsAll | runtime/threads.c:249-278 | In particular when nothing is spawned after shutdown has begun |
| ThreadPool.TooLateNeverRuns | runtime/threads.c:203-278 | A task enqueued after the last worker left is never run, however the run continues |
| ThreadPool.TooLateReachable | runtime/threads.c:203-278 | A run of a new pool that comes to it |
| ThreadPoolObjects.TaskGroup.Record | runtime/threads.c:329-346 | The group's list grows by the handle, however often it is enlarged |
| ThreadPoolObjects.TaskGroup.AwaitAll | runtime/threads.c:348-364 | Whatever states of whatever runs the awaits end in, the results are those of the group's own tasks in spawn order, and every handle is used up |
| ThreadPoolObjects.TaskGroup.Free | runtime/threads.c:366-379 | Exactly the handles not awaited before are awaited, once each |
| ThreadPoolObjects.AwaitReadsOwn | runtime/threads.c:230-247 | What a returned await read is the result of its own task |
| GreenThreads.CountsKept | runtime/green_threads.c:215-280 | Every step keeps: active counts the slot holders and never exceeds the limit, alive counts the threads not yet counted out |
| GreenThreads.SlotsKept | runtime/green_threads.c:215-229 | While threads sleep for a slot, the free slots are spoken for by threads already woken |
| GreenThreads.SchedulerSafe | runtime/green_threads.c:112-373 | In every interleaving at most n bodies execute at once, both counters are exact (failed creations included), launches follow queue order and results are the bodies' own |
| GreenThreads.EnteredOnce | runtime/green_threads.c:243-257 | A body is entered when a slot is free, and never a second time |
| GreenThreads.FlagMeansDone | runtime/green_threads.c:513-524 | The shutdown flag is set if and only if no thread is alive, and then every thread has completed and the run queue is empty, spawns in progress included |
| GreenThreads.CloserEvents | runtime/green_threads.c:513-524 | When the closer can test the count, and what each test decides |
| GreenThreads.LastOneWakes | runtime/green_threads.c:268-277 | Exactly the last thread counted out wakes a sleeping closer, so it never sleeps while nobody is alive |
| GreenThreads.ThrottleUntouchedIff | runtime/green_threads.c:215-280 | After the flag, with no further spawns, no thread ever touches the throttle again if and only if no slot is held |
| GreenThreads.FlagBeforeRelease | runtime/green_threads.c:268-280 | A run of a new scheduler in which the flag is set while a counted-out thread still holds its slot |
| GreenThreads.QuietShutdown | runtime/green_threads.c:513-545 | Without a spawn after the flag all threads stay complete and the final drain finds an empty queue |
| GreenThreads.LateSpawnNeverRuns | runtime/green_threads.c:290-300 | A thread spawned when the dispatcher has left is never run, however the run continues |
| GreenThreads.LateSpawnReachable | runtime/green_threads.c:290-300 | A run of a new scheduler that comes to it |
| GreenThreads.LeaveDecides | runtime/green_threads.c:290-373 | In every run, the threads ever started are exactly those past the queue when the dispatcher leaves; the others and all counted later never run and never complete |
| GreenThreadObjects.GreenRunQueue.Push | runtime/green_threads.c:112-125 | The intrusive queue grows by the thread at its end |
| GreenThreadObjects.GreenRunQueue.TryPop | runtime/green_threads.c:127-138 | The front thread is unlinked and the rest keeps its order; nothing from an empty queue |
| GreenThreadObjects.GreenThrottle.TryAcquire | runtime/green_threads.c:215-222 | A slot is taken exactly when fewer than the limit are |
| GreenThreadObjects.GreenScheduler.CountOut | runtime/green_threads.c:268-274 | One fewer alive, and at zero the waiting closer is signalled |
| GreenThreadObjects.GreenScheduler.TryClose | runtime/green_threads.c:513-521 | The closer waits while threads are alive and sets the flag otherwise |
| SupervisorObject.RestartHistory.Record | runtime/supervisor.c:35-44 | The ring keeps the last 256 times of everything recorded |
| SupervisorObject.RestartHistory.CountInWindow | runtime/supervisor.c:50-64 | The count over the ring is the count over the times it keeps |
| SupervisorObject.LcnSupervisor.ChildStart | runtime/supervisor.c:67-74 | A child that does not run and can be started is started, with one call |
| SupervisorObject.LcnSupervisor.ChildStop | runtime/supervisor.c:77-83 | A child that is not stopped is stopped, with one call if it has a stop function |
| SupervisorObject.LcnSupervisor.RestartChildren | runtime/supervisor.c:130-137 | Children are restarted in order, those never restarted left out |
| SupervisorObject.LcnSupervisor.StrategyOneForOne | runtime/supervisor.c:100-114 | Only the failed child is restarted, or marked stopped when it is never restarted |
| SupervisorObject.LcnSupervisor.StrategyRestartFrom | runtime/supervisor.c:119-163 | Stop from the last child down, then restart upwards |
| SupervisorObject.LcnSupervisor.CheckEscalation | runtime/supervisor.c:174-198 | Escalation exactly when more than the allowed failures lie in the window; then all children are stopped |
| SupervisorObject.LcnSupervisor.Start | runtime/supervisor.c:256-272 | All children are started in order unless already running |
| SupervisorObject.LcnSupervisor.Stop | runtime/supervisor.c:274-288 | All children are stopped, the last first |
| SupervisorObject.LcnSupervisor.ReportFailure | runtime/supervisor.c:290-323 | State, calls and return code after a report are those of the specification |
| Supervisor.RestartAllOrder | runtime/supervisor.c:119-163 | All stops come before all starts, stops from last to first, starts from first to last, and no child below the first one concerned is touched |
| Supervisor.StepSettles | runtime/supervisor.c:67-323 | No call leaves a child failed or restarting |
| SupervisorRuns.EscalatesIff | runtime/supervisor.c:174-198 | With a clock that never goes back a report escalates if and only if more than the allowed failures of the whole history lie in the window, below 256; at 256 and above never |
| SupervisorRuns.EscalationStopsAll | runtime/supervisor.c:180-198 | Escalation stops every child and later reports are refused |
| SupervisorStrategies.ReportCalls | runtime/supervisor.c:100-163 | The callbacks of a handled report, for each strategy: stops from the last child down, then starts upwards, of exactly the children the strategy concerns |
| SupervisorStrategies.ReportChildren | runtime/supervisor.c:100-163 | The children after a handled report: those the strategy does not concern are as before, with their calls; the others are restarted once, or stopped when never restarted |
| SupervisorStrategies.EscalationCalls | runtime/supervisor.c:174-198 | An escalating report stops every child that is not stopped, the last first, starts none and counts no restart |
| SupervisorStrategies.NeverEscalates | runtime/supervisor.c:174-180 | Without a limit no number of failures escalates |
| SupervisorStrategies.StartsInOrder | runtime/supervisor.c:256-272 | Starting starts, in order, exactly the children that can be started and do not run |
| SupervisorStrategies.StopsInOrder | runtime/supervisor.c:274-288 | Stopping stops, the last first, exactly the children that are not stopped |
| SupervisorStrategies.AddedLast | runtime/supervisor.c:231-254 | A child joins stopped and uncounted while there are fewer than 64 |
| SupervisorRuns.StepBalances | runtime/supervisor.c:67-323 | While failures are reported of running children, starts and stops of every restartable child alternate |
| SupervisorRuns.ReportBalancedIff | runtime/supervisor.c:77-92 | A report keeps the alternation of its child if and only if the child was running |
| SupervisorRuns.AlternatesIff | runtime/supervisor.c:67-163 | Over every run from a new supervisor: the starts and stops of a restartable child alternate if and only if every report acted on about it found it running |
| SupervisorRuns.UnbalancedReachable | runtime/supervisor.c:77-92 | Start, add a child and report it: its stop is called before any start |
| SupervisorRuns.SupervisorSafe | runtime/supervisor.c:204-323 | Both invariants hold over every run from a new supervisor, children added at any time |
| Glob.MatchHere | runtime/capability_fence.c:77-105 | The loop with its backtracking terminates and decides the meaning, one token at a time |
| Glob.MatchStar | runtime/capability_fence.c:91-98 | `*` stands for any run without a slash |
| Glob.MatchDeep | runtime/capability_fence.c:80-90 | `**` stands for any run, the rest of the pattern tried on every suffix |
| Glob.GlobMatch | runtime/capability_fence.c:77-105 | For all patterns and subjects, missing ones included, the answer is yes exactly when the subject can be cut into one piece per token |
| Glob.PlainPattern | runtime/capability_fence.c:77-105 | A pattern without stars matches itself and nothing else |
| Glob.DeepCoversTree | runtime/capability_fence.c:80-90 | A directory followed by `**` matches everything below it |
| Glob.StarStaysInComponent | runtime/capability_fence.c:91-98 | A final `*` matches exactly within one path component |
| Glob.DeepDirNeedsMore | runtime/capability_fence.c:80-104 | A pattern that begins with `**/` never matches an empty subject |
| Glob.CheckPath | runtime/capability_fence.c:278-311 | A matching deny rule refuses wherever it stands, otherwise the first matching allow rule decides by its permission, otherwise the default |
| Glob.RuleByRule | runtime/capability_fence.c:278-311 | The decision for every rule list, rule by rule: no rules give the default, a rule that does not match changes nothing, a matching deny rule refuses, a matching allow rule gives its own permission unless a later deny rule matches |
| EventStore.LcnEventStore.Emit | runtime/event.c:94-126 | The event gets the next number and the ring holds the last 8192 events of the history |
| EventStore.LcnEventStore.Query | runtime/event.c:128-168 | The output is exactly the first matching retained events in order, as many as fit, and nothing else is written |
| EventStore.LcnEventStore.LatestSeq | runtime/event.c:170-176 | The number of the newest event of the history, zero when there is none |
| EventStore.PollMissesNothingIff | runtime/event.c:128-168 | A reader that asks from the next number on misses nothing if and only if at most 8192 events came since |
| EventStore.FilteredPoll | runtime/event.c:128-168 | A reader with any filter misses nothing while at most 8192 events came since its number |
| EventStore.FiltersIndependent | runtime/event.c:140-160 | The three filters narrow independently; a negative kind, no agent and an empty agent name let every event through |
| EventStore.SelectExact | runtime/event.c:128-168 | The result is the subsequence at exactly the matching places |
| Entropy.LcnEntropyTracker.Record | runtime/entropy.c:90-112 | The ring keeps the last entries of everything recorded, up to its capacity |
| Entropy.LcnEntropyTracker.RecentIndex | runtime/entropy.c:55-59 | The slot of the i-th most recent entry |
| Entropy.LcnEntropyTracker.AvgConfidence | runtime/entropy.c:114-133 | The mean over the window of the history |
| Entropy.LcnEntropyTracker.AvgEntropy | runtime/entropy.c:135-154 | The mean over the window of the history |
| Entropy.LcnEntropyTracker.LowConfidence | runtime/entropy.c:156-178 | The share of the window below the threshold |
| Entropy.LcnEntropyTracker.Distribution | runtime/entropy.c:180-213 | The share of each known category in the window, zero for the others |
| Entropy.WindowOfHistory | runtime/entropy.c:49-59 | The window the statistics are taken over is the last w of all entries ever recorded |
| Entropy.WindowOfRing | runtime/entropy.c:49-52 | Without a usable window the statistics are over everything kept |
| Entropy.AveragesBetween | runtime/entropy.c:114-154 | An average lies between the least and the greatest of the figures |
| Entropy.SumsAdd | runtime/entropy.c:114-154 | The sums are additive over any division of the entries |
| Entropy.CountsExact | runtime/entropy.c:156-213 | The counts are the numbers of entries below the threshold and in the category |
| Entropy.ProportionsAddUp | runtime/entropy.c:195-210 | The shares of the first n categories add up to the share of entries that have one of them, to one exactly when all do |
| Chunker.Ingest | runtime/kb.c:237-280 | The loop terminates and cuts the text as specified |
| Chunker.ChunksCover | runtime/kb.c:237-280 | For every text, size and overlap the chunks run from the first byte to the last without a gap, start ever further on, repeat at most the overlap, and exceed the size by at most one byte |
| Chunker.EveryByteCovered | runtime/kb.c:237-280 | Every byte lies in some chunk |
| Chunker.RebuildsText | runtime/kb.c:273-280 | Dropping what neighbours repeat rebuilds the text |
| Chunker.EndsNeverRetreat | runtime/kb.c:246-258 | A chunk never ends before its predecessor, whatever the overlap |
| Chunker.EndsGrowIff | runtime/kb.c:246-280 | Every chunk of every text brings new text if and only if the overlap is above the size, or below it and at most one more than half of it, rounded down |
| Chunker.StallRepeats | runtime/kb.c:246-280 | For every other size and overlap a text with two chunks that end at the same byte |

## Left out

- WasmCorrect.EmittedFunctionCorrect: constrains only runs in which the graph reads defined values of the right types and passes scalars to host calls; runs the graph itself leaves undefined are free, except that `BudgetsRespected` covers them too. Memory is a map of eight-byte cells at the addresses allocas return, not bytes.
- Arm64Run.LoweredFunctionCorrect: its condition is sufficient, and refuses some loops whose register happens to hold the right value again, and loops that execute an alloca after a pointer was stored somewhere; it says nothing of runs that trap, because `sdiv` yields zero where the graph traps, nor of a returned pointer, which would point into a dead frame.
- JsonRound.ParsePrint: for numbers other than integers within 10^15 it relies on the C library reading back what it printed; the sign of zero and infinities are not represented.
- GreenThreads.SchedulerSafe: the dispatcher's timed wait is a step that may happen at any time, so how long it takes is not modelled.
- Unify.SucceedsIffSolvable: variables are those the table handed out, as everywhere in the source; function types are left out because nothing constructs one.
- Floating-point instructions, calls between functions, element addresses, string concatenation and printing in both back ends.
- WasmEmit.EmitCtx.EmitHostCall: the arguments are passed as they are; how each capability marshals strings and result buffers is not part of this model.
- WasmBudget.BudgetsRespected: for `llm.classify` and `llm.chat` the source loads a string length between the fences and the call (`src/ir_emit_wasm.c:1478-1499`). That load can trap after the charges were made and before anything is dispatched, an outcome this model does not have; the inequalities would hold there as they do for a refused call.
- WasmEmit.EmitCtx.Register: a site does not record its slab; `WasmMemory.Slab` is where the source puts the one of the index returned.
- The module-level sections around the functions.
- The ARM64 prologue as instructions, and anything that writes below the stack pointer: the interpreter has no other user of the stack.
- Casts from integer to boolean have no meaning in the graph here: the WebAssembly code keeps the low 32 bits (`WasmTypes.CastConverts`), the ARM64 code passes all 64 through.
- Memory exhaustion, freeing of memory and recursion depth everywhere.
- Element sizes of channels: an item is one value.
- Which runs of an unbuffered channel with several senders at once stall, beyond the exact number of senders and the exact condition of one receive.
- Awaiting one task from two threads, which frees its handle twice.
- Parking, yielding, detaching and stack sizes of green threads.
- The escalation callback, names and printed messages of a supervisor.
- Endpoint, binary and tool rules beside path rules.
- Rendering events as JSON, the agent registry, and the 64-bit limit of event numbers.
- Rounding in the entropy statistics: reals stand for doubles; drift and budget checks built on them.
- The database behind the knowledge base: every insertion is taken to succeed.
- Simple accessors, setters and table lookups, which would add only easy members.
