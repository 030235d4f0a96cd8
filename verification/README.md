# Lua 5.1.4 and libevent 1.4.12: a verified model

This project models the parts of the two libraries that keep the most state, and proves what they are for.

- **Garbage collection** (`LuaHeap`, `Gc*`). The collector of Lua is a machine of five phases whose steps are
  interleaved with the writes of the program it serves. The invariant is that live objects refer to live objects only,
  and while marking the tricolour invariant. `GcRun` has the runs, `GcReach`, `GcContents` and `GcFull` what a whole
  cycle frees and what it leaves of weak tables, `GcFinal` the finalizers of a run, and `GcCollector` the collector as
  a class that works on lists in place. `GcWaiting` has two runs with userdata that wait for their finalizers.
- **Code generation** (`LuaCode`, `Code*`). Expressions are compiled in one pass, with lists of open jumps threaded
  through the code. `LuaCode` is the machine, `CodeGen` the generator on values, `CodeMeaning` what an expression
  descriptor denotes, `CodeTheorem` the theorem, `CodeRoom` that there is nothing else to suppose when there is room,
  `CodeFits` that instructions fit their fields, `CodeFuncState` the generator as a class. `LuaParser` is the operator
  precedence parser, `LuaGrammar` the grammar it recognises, and `CodeParse` and `CodeSubexpr` are the parser and the
  generator in one pass.
- **Event scheduling** (`EvTime`, `EvHeap`, `EvQueues`, `EvFlags`, `EvEffects`, `EvBase`, `EvPoll`). An event can be
  in three places at once; flags, lists, queues, heap, back-indices and counters must agree through every run.
- **Wire formats** (`EvBuffer`, `EvTag`, `EvMarshal`, `DnsName`, `DnsWrite`, `DnsOutcome`). Byte buffers, tagged
  records, and domain names with compression (section 4.1.4 of RFC 1035).
- **Index structures** (`LuaStrings`, `LuaUpvals`) and the in-place quicksort (`LuaSort`).

Code that changes state is a class or a method on arrays, proved against functions on values; the theorems are about
these functions. What the clock, the memory allocator, the kernel and callbacks do is a parameter.

## Findings

Eight properties do not hold of the code as it is. Each has an input or a run that shows it and the condition under
which the property does hold.

- Barriers and waiting userdata, `lgc.c:662-672`: a userdata that waits for its finalizer stays black, since the sweep
  does not come to it. The finalizer of another one can reach it and store a new table in it, and then the barrier
  runs in the finalize phase, which it asserts it does not (`GcWaiting.BarrierAtEnd`). The assertion holds exactly for
  all other writes (`GcRun.BarrierAssertions`). In the same way a cycle that starts before the finalizers were called
  (`lgc.c:649-654`) has a black userdata that refers to a white object (`GcWaiting.WaitingIsBlack`); no other black
  object does (`GcRun.MarkingInvariant`). Nothing is lost by it: the atomic phase marks waiting userdata anew, and
  `GcRun.NothingAccessibleIsFreed` covers these runs.
- Expression values, `lcode.c:547-550` and `575-578`: in `((a or b) and false) and c` the value of `a` is stored where
  false should be (`CodeClean.WrongValue`). `luaK_goiftrue` on false and `luaK_goiffalse` on true go wrong exactly
  when the run comes to the constant by a waiting jump that carries another value (`CodeTheorem.ConstantExit`).
- Record lengths, `event_tagging.c:272-326`: for a record cut short `evtag_peek_length` promises more bytes than
  `evtag_consume` drains (`EvMarshal.CutShort`). They agree exactly when the buffer has as many bytes as the header
  says (`EvMarshal.PeekIsConsumed`).
- Name compression, `evdns.c:1396-1399`: a pointer to a name at 0x4000 or above leads elsewhere
  (`DnsWrite.FarPointer`). It leads where it should exactly below 0x4000 (`DnsWrite.PointerLeads`), and names come
  back as long as the entries that pointers were made for are there (`DnsWrite.NamesRoundTrip`). A name can come back
  in spite of such a pointer, if the place it leads to happens to hold the same name, so this direction is the one
  that can be promised for a message. No caller in the library comes to 0x4000: the only one with a table has a buffer
  of 1500 bytes (`evdns.c:1630`).
- Name writing, `evdns.c:1427`: the final zero is not compared with the length of the buffer, which the caller gives
  as the size of its array (`evdns.c:1630-1657`), so a name that fills the buffer is written one byte past it
  (`DnsWrite.ShortBuffer`). It happens exactly when the last label ends at the limit and no pointer is used
  (`DnsWrite.PastIff`).
- Name parsing, `evdns.c:796-798`: the bytes of a label are copied before its end is compared with the length of the
  packet (`DnsName.CutPacket`). A read leaves the packet exactly when a label that the end of the packet cuts short is
  reached and fits in the output (`DnsName.LeavesIff`); the result does not depend on what is read there.
- Times that are not normal, `evutil.h:126-155`: nothing checks that a timeout has fewer than a million microseconds.
  One that has more compares the wrong way with some normal time (`EvTime.NormalIff`), and when the clock goes back
  (`event.c:888-920`) two deadlines can change their order in the heap (`EvTime.ShiftReverses`); a time is safe from
  both exactly if it is normal (`EvTime.NormalIff`, `EvTime.ShiftIff`). On a monotonic clock the heap stays in order
  with any times (`EvBase.EventBase.Run`).
- Poll registration, `poll.c:205-360`: a second reader of a descriptor pushes the first one out, and deleting either
  deletes both (`EvPoll.TwoReaders`). Deleting undoes adding exactly when nothing was pushed out
  (`EvPoll.AddThenDelete`).

Where code and comments disagree the model follows the code: the comment in `name_parse` says that lengths are below
63 and pointers begin with two one bits, while the code allows 63 and takes every length from 64 on for a pointer.

## Model

| member | source | states |
|---|---|---|
| GcRun.NothingAccessibleIsFreed | protocol/3rd/lua-5.1.4/src/lgc.c:525-710 | in every run from an initial state, however collector steps, barriered writes, allocations, stack writes and upvalue closings are interleaved, an object that a path of edges of any strength reaches is there and survives the next step |
| GcRun.StepKeepsInv | protocol/3rd/lua-5.1.4/src/lgc.c:556-607 | each of the eighteen kinds of step, of the collector and of the program, keeps the collector invariant: live objects refer to live objects only, the colours fit the phase, and the tricolour invariant holds while marking |
| GcRun.MarkingInvariant | protocol/3rd/lua-5.1.4/src/lgc.c:277-320 | in every reachable propagate state a black object is neither a thread nor an open upvalue, and it refers to no white object unless it is a userdata that waits for its finalizer |
| GcWaiting.WaitingIsBlack | protocol/3rd/lua-5.1.4/src/lgc.c:649-654 | a run into a propagate state in which a waiting userdata is black and refers to a white object: the next cycle started before the finalizers were called |
| GcRun.WeakStaysGray | protocol/3rd/lua-5.1.4/src/lgc.c:158-196 | a table that was weak when it was traversed is gray and in the list of weak tables in every later state of the run until marking ends |
| GcRun.AllWhiteAfterSweep | protocol/3rd/lua-5.1.4/src/lgc.c:581-600 | in every reachable finalize or pause state every object carries the current white, except userdata that wait for their finalizer |
| GcRun.BarrierAssertions | protocol/3rd/lua-5.1.4/src/lgc.c:662-683 | in every reachable state where a write of a value that the program can reach needs a barrier, neither object is dead, and the phase is neither finalize nor pause, as the barriers assert, if and only if the write does not go to a userdata that waits for its finalizer in the finalize phase |
| GcWaiting.BarrierAtEnd | protocol/3rd/lua-5.1.4/src/lgc.c:662-672 | a run into a finalize state in which the program reaches a waiting userdata and a new table from its stack, may store one in the other, and the store needs a barrier |
| GcRun.NoneWaitInPause | protocol/3rd/lua-5.1.4/src/lgc.c:593-603 | in every reachable pause state no userdata waits for its finalizer |
| GcFull.FullCollection | protocol/3rd/lua-5.1.4/src/lgc.c:501-607 | an uninterrupted cycle from `markroot` keeps every strongly reachable object and frees every other one but fixed strings and strings that a strongly reachable table refers to; what is left is as it was, slot by slot, except that a weak table has lost exactly the entries whose key or value is collectable, no string and not strongly reachable, or whose value is a userdata that was finalized; no reference dangles |
| GcCollector.Collector.FullGC | protocol/3rd/lua-5.1.4/src/lgc.c:636-659 | from any collector state, without finalizers, it ends; what was strongly reachable is there, everything else is gone except strings that were fixed or held by a strongly reachable table; no object is new, each has the contents that it had, slot by slot, except that a weak table has lost exactly the entries and array slots that it must lose, and no reference dangles |
| GcCollector.Collector.FirstSweep | protocol/3rd/lua-5.1.4/src/lgc.c:637-653 | abandoning a mark phase or finishing a sweep leaves every object that is left as it was, up to the closing of an open upvalue with its value, and the same objects strongly reachable |
| GcMark.MarkObjectExtends | protocol/3rd/lua-5.1.4/src/lgc.c:69-112 | marking one object gives each newly marked object the colour and the place in the gray list that its kind asks for, changes no other colour, and leaves the object marked |
| GcMark.MarkObjectWithin | protocol/3rd/lua-5.1.4/src/lgc.c:69-112 | marking from an object stays inside every set that is closed under strong edges and contains it |
| GcMark.MarkValuesExtends | protocol/3rd/lua-5.1.4/src/lgc.c:158-270 | marking a list of references, as the traversals do, marks all of them and changes nothing else |
| GcMark.MarkValuesWithin | protocol/3rd/lua-5.1.4/src/lgc.c:158-270 | marking a list of references stays inside every set that is closed under strong edges and contains them |
| GcTraverse.PropagateKeepsTricolor | protocol/3rd/lua-5.1.4/src/lgc.c:277-320 | traversing the first gray object keeps the tricolour invariant, for each kind of object and for weak tables |
| GcPhases.MarkRootTricolor | protocol/3rd/lua-5.1.4/src/lgc.c:501-512 | marking the roots of an all-white state establishes the tricolour invariant |
| GcClear.ClearedClosed | protocol/3rd/lua-5.1.4/src/lgc.c:351-375 | after the weak tables are cleared, what is marked refers to what is marked only |
| GcAtomicInv.AtomicKeepsInv | protocol/3rd/lua-5.1.4/src/lgc.c:525-553 | the atomic phase, with the remarking of upvalues, weak and gray-again objects, the separation of userdata, the clearing of weak tables and the flip of the white, keeps the invariant |
| GcAtomicInv.AtomicKeepsStrong | protocol/3rd/lua-5.1.4/src/lgc.c:525-553 | what a path of strong edges reaches is alive after the atomic phase |
| GcAtomicInv.AtomicKeepsEntry | protocol/3rd/lua-5.1.4/src/lgc.c:337-375 | an entry of a table whose key and value are marked, are strings or need no collection is still there after the atomic phase |
| GcAtomicInv.AtomicKeepsSlot | protocol/3rd/lua-5.1.4/src/lgc.c:356-362 | a value in the array part that is strongly reachable and not finalized, a string or not collectable stays; any other stays or becomes nil; with finalizers or without |
| GcContents.AtomicContents | protocol/3rd/lua-5.1.4/src/lgc.c:337-375 | after a cycle's atomic phase an entry or an array slot of a weak table is gone if and only if its key or value is collectable, no string and not strongly reachable, or its value is a userdata that was finalized; every other object, and every table that is not weak, is as it was |
| GcRun.FreshIsAlive | protocol/3rd/lua-5.1.4/src/lgc.c:686-692 | a new object, and a string or upvalue taken up again, is alive and has the contents it was given, in every phase |
| GcRun.StepKeepsUpval | protocol/3rd/lua-5.1.4/src/lgc.c:695-710 | no step but a write changes what an upvalue stands for: closing it does not, nor the freeing of its thread, nor any other step of the collector |
| GcFinal.FinalizerFirst | protocol/3rd/lua-5.1.4/src/lgc.c:128-155 | in every run: a userdata that has a finalizer since before it was first looked at is not freed until the finalizer was called |
| GcFinal.FinalizedOnce | protocol/3rd/lua-5.1.4/src/lgc.c:445-470 | in every run: no finalizer is called twice for a userdata, unless its memory was freed and given to another in between |
| GcFinal.FirstCome | protocol/3rd/lua-5.1.4/src/lgc.c:445-457 | in every run: finalizers are called in the order in which the userdata were found, across cycles |
| GcFinal.ReachedIsNotFound | protocol/3rd/lua-5.1.4/src/lgc.c:535-545 | no finalizer is due for a userdata to which a strong path leads that passes none that waits already |
| LuaHeap.MetatableEntry | protocol/3rd/lua-5.1.4/src/lgc.c:162-174 | a table is weak in its keys or values if and only if the `__mode` entry of its metatable is a string with a `k` or a `v`, and a userdata has a finalizer if and only if its `__gc` entry is not nil |
| LuaHeap.NoEntry | protocol/3rd/lua-5.1.4/src/lgc.c:162-174 | without a metatable or such an entry a table is not weak and a userdata has no finalizer |
| GcSweep.SweepFreesDead | protocol/3rd/lua-5.1.4/src/lgc.c:407-428 | a sweep step frees no live object |
| GcSweep.SweepKeepsInv | protocol/3rd/lua-5.1.4/src/lgc.c:407-428 | a sweep step, with the sweep of a thread's open upvalues, keeps the invariant |
| GcSweep.TakeFinalizableKeepsInv | protocol/3rd/lua-5.1.4/src/lgc.c:445-457 | taking a userdata back before its finalizer is called keeps the invariant |
| GcSweep.RestartKeepsInv | protocol/3rd/lua-5.1.4/src/lgc.c:636-648 | abandoning a mark phase keeps the invariant |
| GcMutatorInv.NewKeepsInv | protocol/3rd/lua-5.1.4/src/lgc.c:686-692 | a new object, ahead of the sweep or behind it, keeps the invariant |
| GcMutatorInv.WriteObjectKeepsInv | protocol/3rd/lua-5.1.4/src/lgc.c:662-672 | a write with the forward barrier keeps the invariant |
| GcMutatorInv.WriteTableKeepsInv | protocol/3rd/lua-5.1.4/src/lgc.c:675-683 | a write to a table with the backward barrier keeps the invariant |
| GcMutatorInv.BarrierSettles | protocol/3rd/lua-5.1.4/src/lgc.c:662-683 | no barrier is needed twice: after the write the object is not black or the value is not white, in every phase |
| GcMutatorInv.WriteUpvalKeepsInv | protocol/3rd/lua-5.1.4/src/lgc.h:86-97 | a write through an open upvalue, which needs no barrier, keeps the invariant |
| GcMutatorInv.CloseUpvalKeepsInv | protocol/3rd/lua-5.1.4/src/lgc.c:695-710 | closing an upvalue and linking it into the list of all objects keeps the invariant |
| GcCollector.Collector.MarkObj | protocol/3rd/lua-5.1.4/src/lgc.c:69-112 | marks as the specification function does, for every kind of object |
| GcCollector.Collector.TraverseTable | protocol/3rd/lua-5.1.4/src/lgc.c:158-196 | marks the strong part of a table, drops the keys of its empty entries and tells whether it is weak |
| GcCollector.Collector.PropagateOne | protocol/3rd/lua-5.1.4/src/lgc.c:277-320 | takes the first gray object and traverses it, as the specification function does |
| GcCollector.Collector.PropagateGray | protocol/3rd/lua-5.1.4/src/lgc.c:323-327 | traverses until nothing is gray, and ends |
| GcCollector.Collector.RemarkOpenUpvals | protocol/3rd/lua-5.1.4/src/lgc.c:515-522 | marks the values of the gray upvalues in the list of all open ones |
| GcCollector.Collector.MarkWaiting | protocol/3rd/lua-5.1.4/src/lgc.c:115-124 | marks the userdata that wait for their finalizer anew |
| GcCollector.Collector.SeparateUdata | protocol/3rd/lua-5.1.4/src/lgc.c:128-155 | moves exactly the white userdata with a finalizer out of the list of all objects, in order |
| GcCollector.Collector.IsCleared | protocol/3rd/lua-5.1.4/src/lgc.c:337-345 | tells whether a weak reference goes, and marks a string |
| GcCollector.Collector.ClearWeakTables | protocol/3rd/lua-5.1.4/src/lgc.c:351-375 | clears every weak table and marks the strings they keep, as the specification function does |
| GcCollector.Collector.AtomicPhase | protocol/3rd/lua-5.1.4/src/lgc.c:525-553 | the whole atomic phase is the specification function's, and keeps the lists and the invariant |
| GcCollector.Collector.SweepRoots | protocol/3rd/lua-5.1.4/src/lgc.c:407-428 | sweeps 40 objects of the list of all objects, or to its end, each step an enabled step of the model |
| GcCollector.Collector.SweepStringChain | protocol/3rd/lua-5.1.4/src/lgc.c:407-428 | sweeps one chain of strings |
| GcCollector.Collector.FinishSweep | protocol/3rd/lua-5.1.4/src/lgc.c:649-653 | sweeps to the end, in sweep steps only |
| GcCollector.Collector.FinishMarkPhase | protocol/3rd/lua-5.1.4/src/lgc.c:654-657 | marks from the roots to the flip; ends |
| CodeTheorem.ExpressionValue | protocol/3rd/lua-5.1.4/src/lcode.c:390-419 | for every expression of locals, constants, arithmetic, comparisons, `not`, `and`, `or` and parentheses without the excluded shape, and every run that comes to it: running the emitted code leaves the short-circuit value in the next register, comes to the next instruction, and changes no register in use |
| CodeTheorem.AssignmentValue | protocol/3rd/lua-5.1.4/src/lcode.c:472-478 | the same for an assignment to a local, which may be used in the expression |
| CodeRoom.ExpressionCompiles | protocol/3rd/lua-5.1.4/src/lcode.c:199-247 | an expression compiles, if its registers fit below 250, its constants into 18 bits and its instructions into the reach of a jump, by counts that follow the expression |
| CodeRoom.ExpressionWorks | protocol/3rd/lua-5.1.4/src/lcode.c:390-419 | such an expression, without the excluded shape, compiles to code that leaves its value in the next register: nothing is left to suppose about the compiler |
| CodeRoom.AssignmentCompiles | protocol/3rd/lua-5.1.4/src/lcode.c:472-478 | the same for an assignment to a local |
| CodeRoom.TokensCompiles | protocol/3rd/lua-5.1.4/src/lparser.c:828-862 | and from the tokens of any tree of the grammar |
| CodeRoom.CompileRoom | protocol/3rd/lua-5.1.4/src/lcode.c:697-789 | how many constants and instructions an expression takes at most, with its registers |
| CodeFits.ExpressionFits | protocol/3rd/lua-5.1.4/src/lopcodes.h:37-127 | every instruction of any expression that compiles fits its fields: registers in 8 bits, operands in 9 with constants from 256 on, constants in 18 bits, jumps within 131071; only registers, constants and jumps are checked by the code |
| CodeFits.OperandFits | protocol/3rd/lua-5.1.4/src/lcode.c:438-469 | an operand is a register below 250 or one of the first 256 constants |
| CodeShort.NumeralsFold | protocol/3rd/lua-5.1.4/src/lcode.c:634-658 | two numerals are folded if and only if the operation is not the length, not a division or remainder by zero, and its result is a number; otherwise an instruction is emitted |
| CodeShort.ConstantOperand | protocol/3rd/lua-5.1.4/src/lcode.c:438-462 | while there are fewer than 256 constants, a constant is an operand without an instruction or a register |
| CodeShort.NilMerges | protocol/3rd/lua-5.1.4/src/lcode.c:35-58 | nil is emitted as an instruction exactly unless it extends the last one, or begins a function in a fresh register |
| CodeTheorem.ExpressionFromHere | protocol/3rd/lua-5.1.4/src/lcode.c:390-419 | from a label, running just the code of the expression has that effect |
| CodeTheorem.ConstantExit | protocol/3rd/lua-5.1.4/src/lcode.c:539-591 | `luaK_goiftrue` on the constant false and `luaK_goiffalse` on true do what they should if and only if the run does not come there by a waiting jump that carries another value |
| CodeClean.WrongValue | protocol/3rd/lua-5.1.4/src/lcode.c:547-550 | `((a or b) and false) and c` with `a` true stores the value of `a` and not false |
| CodeClean.PlainIsClean | protocol/3rd/lua-5.1.4/src/lcode.c:539-591 | a condition on the expression alone, under which it is compiled right in every state |
| CodeLogic.CompileRun | protocol/3rd/lua-5.1.4/src/lcode.c:718-789 | the code and the descriptor that the compiler leaves for any expression denote its value: every exit carries its truth, and its value if it is one that does |
| CodeCompile.CompileOk | protocol/3rd/lua-5.1.4/src/lcode.c:661-789 | compiling any expression keeps the generator's lists acyclic, disjoint and threaded through the code, and touches no jump that is open around it |
| CodeLists.ConcatAppends | protocol/3rd/lua-5.1.4/src/lcode.c:185-196 | `luaK_concat` is the append of the two lists: the code is threaded with the members of both, in order |
| CodeLists.PatchListEffect | protocol/3rd/lua-5.1.4/src/lcode.c:150-160 | patching retargets exactly the list's members, makes each `TESTSET` store to the register or become a plain test, and alters no other instruction |
| CodeLists.RemoveValuesEffect | protocol/3rd/lua-5.1.4/src/lcode.c:144-147 | exactly the `TESTSET`s of the list become plain tests |
| CodeRuns.CodeRun | protocol/3rd/lua-5.1.4/src/lcode.c:797-809 | emitting an instruction: runs that had come to the next position execute it, all others stop where they did |
| CodeExits.ExpToRegRun | protocol/3rd/lua-5.1.4/src/lcode.c:390-411 | after `exp2reg` every way through the expression ends behind it with the value in the register |
| CodeOperands.ExpToRKRun | protocol/3rd/lua-5.1.4/src/lcode.c:444-469 | the operand names a register or a constant that has the value |
| CodeConds.JumpOnCondRun | protocol/3rd/lua-5.1.4/src/lcode.c:524-536 | the jump leaves exactly when the truth of the expression is the one asked for |
| CodeConds.GoIfRun | protocol/3rd/lua-5.1.4/src/lcode.c:539-591 | control goes on exactly when the truth is the other one, and every exit is in the list of its truth |
| CodeOps.CodeNotRun | protocol/3rd/lua-5.1.4/src/lcode.c:594-626 | the negated descriptor denotes the negated value |
| CodeCorrect.ArithRun | protocol/3rd/lua-5.1.4/src/lcode.c:661-678 | the result of an arithmetic operation, folded or not |
| CodeCorrect.CompRun | protocol/3rd/lua-5.1.4/src/lcode.c:681-694 | a comparison leaves by its jump exactly when it is as asked, also with the operands exchanged |
| CodeFuncState.FuncState.FixJump | protocol/3rd/lua-5.1.4/src/lcode.c:80-87 | stores an offset, or fails if it does not fit |
| CodeFuncState.FuncState.PatchListAux | protocol/3rd/lua-5.1.4/src/lcode.c:150-160 | the walk over a list that is threaded through the code is the specification on the sequence of its members |
| CodeFuncState.FuncState.Append | protocol/3rd/lua-5.1.4/src/lcode.c:185-196 | the walk to the end of the first list, likewise |
| CodeFuncState.FuncState.EmitNil | protocol/3rd/lua-5.1.4/src/lcode.c:35-56 | `luaK_nil`, with both short cuts |
| CodeFuncState.FuncState.AddConstant | protocol/3rd/lua-5.1.4/src/lcode.c:229-247 | a constant gets one index; a new one is refused exactly when there are 262143 |
| CodeFuncState.FuncState.DischargeTo | protocol/3rd/lua-5.1.4/src/lcode.c:343-379 | `discharge2reg` for every kind of expression |
| CodeFuncState.FuncState.ToReg | protocol/3rd/lua-5.1.4/src/lcode.c:390-411 | `exp2reg` is the specification function |
| CodeFuncState.FuncState.ToRK | protocol/3rd/lua-5.1.4/src/lcode.c:444-469 | `luaK_exp2RK` is the specification function |
| CodeFuncState.FuncState.JumpIf | protocol/3rd/lua-5.1.4/src/lcode.c:524-536 | `jumponcond` is the specification function |
| CodeFuncState.FuncState.GoIfTrue | protocol/3rd/lua-5.1.4/src/lcode.c:539-564 | `luaK_goiftrue` is the specification function |
| CodeFuncState.FuncState.GoIfFalse | protocol/3rd/lua-5.1.4/src/lcode.c:567-591 | `luaK_goiffalse` is the specification function |
| CodeFuncState.FuncState.NotOf | protocol/3rd/lua-5.1.4/src/lcode.c:594-626 | `codenot` is the specification function |
| CodeFuncState.FuncState.ArithOf | protocol/3rd/lua-5.1.4/src/lcode.c:661-678 | `codearith` is the specification function, folding included |
| CodeFuncState.FuncState.CompareOf | protocol/3rd/lua-5.1.4/src/lcode.c:681-694 | `codecomp` is the specification function |
| CodeFuncState.FuncState.CompileExpr | protocol/3rd/lua-5.1.4/src/lcode.c:697-789 | the recursive compiler on the mutable state gives the specification's code, lists and descriptor, and fails exactly when that does |
| CodeFuncState.FuncState.ExprToNextReg | protocol/3rd/lua-5.1.4/src/lcode.c:414-419 | so does an expression put into the next register |
| LuaParser.ParseSound | protocol/3rd/lua-5.1.4/src/lparser.c:828-853 | the tokens of the tree and those left are the input, the tree respects left, right and unary priorities, no operator that follows could extend it, and it is no deeper than the level limit |
| LuaParser.ParseYield | protocol/3rd/lua-5.1.4/src/lparser.c:828-853 | parsing the tokens of any tree that respects the priorities comes to that tree and goes on from it |
| LuaParser.ParseExact | protocol/3rd/lua-5.1.4/src/lparser.c:828-853 | a tree is the result if and only if its tokens are those consumed, it respects the priorities, no operator that follows could extend it, and it is within the level limit |
| LuaGrammar.ParseGrammar | protocol/3rd/lua-5.1.4/src/lparser.c:828-853 | the same without the table of priorities: a tree is the result if and only if it is the grammar's, by the order of operators in section 2.5.6 of the manual, with `..` and `^` to the right, and its tokens are those consumed |
| LuaGrammar.RespectsIff | protocol/3rd/lua-5.1.4/doc/manual.html:1107-1125 | the trees that respect the table of priorities are exactly those of the manual's order of operators |
| LuaGrammar.TwoOperators | protocol/3rd/lua-5.1.4/src/lparser.c:810-822 | what `x op1 y op2 z` means, for each of the 225 pairs of operators |
| LuaGrammar.UnaryFirst | protocol/3rd/lua-5.1.4/src/lparser.c:822-834 | a unary operator before `x op y` applies to `x`, unless the operator is `^` |
| LuaParser.OneTree | protocol/3rd/lua-5.1.4/src/lparser.c:810-853 | no two trees over the same tokens respect the priorities |
| LuaParser.LexState.Subexpr | protocol/3rd/lua-5.1.4/src/lparser.c:828-853 | the recursive loop on the token stream gives that tree and leaves the stream behind it, or fails exactly when the specification does |
| CodeParse.OnePassIs | protocol/3rd/lua-5.1.4/src/lparser.c:828-853 | generating code while parsing gives exactly the code, the descriptor and the tokens left that parsing into a tree and compiling the tree would give, and fails exactly when one of these fails |
| CodeParse.TokensValue | protocol/3rd/lua-5.1.4/src/lparser.c:828-862 | from tokens to values: one pass over the tokens of any tree of the manual's grammar emits code that leaves the value of that tree, by the operators as they are written, in the next register and changes no register in use |
| CodeParse.EvalTree | protocol/3rd/lua-5.1.4/src/lcode.c:718-789 | the value of the expression that the parser makes of a tree is the value of the tree: `>` and `>=` are `<` and `<=` with the operands exchanged, and `~=` is not `==` |
| CodeSubexpr.Subexpr | protocol/3rd/lua-5.1.4/src/lparser.c:828-853 | `subexpr` on the token stream and the mutable generator together is that pass, in result, code, descriptor, tokens left and failure |
| DnsWrite.NamesRoundTrip | socket/3rd/libevent-1.4.12-stable/evdns.c:1370-1433 | any legal names written with one table, each parsed where it starts, come back the same up to a final dot with the offset just past them, as long as the entries that pointers were made for lie below 0x4000 |
| DnsWrite.ShortMessage | socket/3rd/libevent-1.4.12-stable/evdns.c:1396-1399 | which they do in every message that ends below 0x4000 |
| DnsWrite.PointerLeads | socket/3rd/libevent-1.4.12-stable/evdns.c:1396-1399 | a pointer leads to the position it was made for if and only if that is below 0x4000 |
| DnsWrite.FarPointer | socket/3rd/libevent-1.4.12-stable/evdns.c:1396-1399 | a message with a name at 0x4000: the second copy of the name comes back empty |
| DnsWrite.EncodedIsNamed | socket/3rd/libevent-1.4.12-stable/evdns.c:1370-1433 | what was written is a name of the message, with few enough pointers, all of them strictly backwards |
| DnsWrite.WriteGood | socket/3rd/libevent-1.4.12-stable/evdns.c:1370-1433 | the rest of a name written in fresh space stands there, what was before is unchanged, and so do all entries of the table |
| DnsWrite.DnsnameToLabels | socket/3rd/libevent-1.4.12-stable/evdns.c:1370-1433 | the loop on the buffer and the table is the specification function, with both error results; it tells whether the final zero went behind the limit, and changes the byte behind a buffer of that length only then |
| DnsOutcome.NameOutcome | socket/3rd/libevent-1.4.12-stable/evdns.c:1370-1433 | a name is written if and only if it has at most 255 bytes, the labels before the first rest that the table knows have at most 63 bytes each, and what is written fits; its length is then exact; -1 is for a long label that is come to, -2 for the rest |
| DnsOutcome.HitIsFirst | socket/3rd/libevent-1.4.12-stable/evdns.c:1387-1401 | that rest is the longest one that the table has; without one all labels are written |
| DnsOutcome.WrittenIsKnown | socket/3rd/libevent-1.4.12-stable/evdns.c:1342-1356 | a name that was written is in the table, unless that had its 128 entries |
| DnsOutcome.SecondTime | socket/3rd/libevent-1.4.12-stable/evdns.c:1387-1401 | the second time, the name takes just two bytes |
| DnsWrite.PastIff | socket/3rd/libevent-1.4.12-stable/evdns.c:1408-1427 | the final zero goes behind the limit if and only if no rest of the name is in the table, every label is legal and the last one ends exactly at the limit |
| DnsWrite.ShortBuffer | socket/3rd/libevent-1.4.12-stable/evdns.c:1427 | a name in a buffer of two bytes of which three are written |
| DnsWrite.LabelTable.GetPos | socket/3rd/libevent-1.4.12-stable/evdns.c:1330-1338 | the position of the first entry for the name, or -1 |
| DnsWrite.LabelTable.AddLabel | socket/3rd/libevent-1.4.12-stable/evdns.c:1342-1356 | one more entry, unless there are 128 |
| DnsName.NameParse | socket/3rd/libevent-1.4.12-stable/evdns.c:756-809 | for every packet, cyclic pointers included, it ends; it succeeds if and only if there is a name at the offset that fits in the output, and gives that name and the offset past it; it reads past the packet if and only if a label cut short by its end is reached and fits in the output, and never when it succeeds |
| DnsName.LeavesIff | socket/3rd/libevent-1.4.12-stable/evdns.c:796-798 | exactly when a read leaves the packet, in terms of the labels and pointers that lead to the place |
| DnsName.CutPacket | socket/3rd/libevent-1.4.12-stable/evdns.c:796-798 | a packet of two bytes of which six are read |
| DnsName.ParseSound | socket/3rd/libevent-1.4.12-stable/evdns.c:756-809 | what is found is the name there |
| DnsName.ParseIffNamed | socket/3rd/libevent-1.4.12-stable/evdns.c:756-809 | the limit on pointers turns no name away: labels are found if and only if they are the name there, by any number of pointers |
| DnsName.FewPointers | socket/3rd/libevent-1.4.12-stable/evdns.c:787 | a name is reached by no more pointers than the packet has bytes |
| DnsName.NamedUnique | socket/3rd/libevent-1.4.12-stable/evdns.c:756-809 | a packet has one name at most at an offset |
| EvBase.EventBase.Run | socket/3rd/libevent-1.4.12-stable/event.c:364-1006 | every run of setting, adding, deleting and activating events, timeout processing, clock correction and passes over the active events, whatever their callbacks do, keeps flags, inserted list, priority queues, heap, back-indices and both counters in exact agreement, with any times at all on a monotonic clock, and with normal times on one that may go back; and every state comes from the one before by what its turn does to the events' places |
| EvBase.EventBase.EventAdd | socket/3rd/libevent-1.4.12-stable/event.c:719-794 | for any deadline, normal or not: it returns -1 exactly when memory or the backend fails, and then nothing has changed; otherwise the event is inserted, the result is the backend's, or 0 if it was not asked, and the new deadline replaces the old one and its activation by it |
| EvBase.EventBase.EventDel | socket/3rd/libevent-1.4.12-stable/event.c:797-834 | the event leaves every place, and nothing else changes place |
| EvBase.EventBase.EventActive | socket/3rd/libevent-1.4.12-stable/event.c:837-849 | an active event collects the reasons; another goes to the end of the queue of its priority |
| EvBase.EventBase.TimeoutProcess | socket/3rd/libevent-1.4.12-stable/event.c:923-944 | exactly the events whose deadline is at or before now are activated, in nondecreasing deadline order at the end of the queue of their priority, and they leave the heap and the inserted list |
| EvBase.EventBase.TimeoutCorrect | socket/3rd/libevent-1.4.12-stable/event.c:888-920 | if the clock went back every deadline goes back as far; when the times are normal no remaining time changes and the heap stays ordered |
| EvBase.EventBase.TimeoutNext | socket/3rd/libevent-1.4.12-stable/event.c:852-879 | the time to wait is none if there is no deadline, zero if one has come, and else leads exactly to the earliest; when the times are normal it is zero only if one has come |
| EvBase.EventBase.ProcessActive | socket/3rd/libevent-1.4.12-stable/event.c:364-397 | the events of the highest priority that has any are run first come first served, each out of its queue before its callbacks, each state coming from the one before by that and by what the callbacks do; the pass ends when the queue is empty or a callback says so, and callbacks that leave the queue alone see all of it run, in order |
| EvEffects.QuietPass | socket/3rd/libevent-1.4.12-stable/event.c:364-397 | in any pass whose callbacks change nothing, exactly the queue as it was is run, in order, and the other queues stay as they were |
| EvBase.EventBase.Do | socket/3rd/libevent-1.4.12-stable/event.c:364-1006 | each call has exactly the effect on kinds, priorities, deadlines, results, flags, lists and queues that is written down for it |
| EvBase.EventBase.DoAll | socket/3rd/libevent-1.4.12-stable/event.c:364-1006 | calls one after another have their effects one after another |
| EvBase.EventBase.TakeFirst | socket/3rd/libevent-1.4.12-stable/event.c:380-384 | the first event leaves its queue; a persistent one keeps its place in the inserted list and its deadline, any other loses both; nothing else changes |
| EvBase.EventBase.PrioritySet | socket/3rd/libevent-1.4.12-stable/event.c:675-685 | the priority changes, with result 0, unless the event is active or there is no such queue, with result -1 |
| EvBase.EventBase.Push | socket/3rd/libevent-1.4.12-stable/min_heap.h:65-71 | the heap stays ordered, has the event besides those it had, each at its back-index; without memory nothing changes |
| EvBase.EventBase.Erase | socket/3rd/libevent-1.4.12-stable/min_heap.h:85-104 | at any position: the heap stays ordered, has the others each at its back-index, and the event is marked -1 |
| EvBase.EventBase.Pop | socket/3rd/libevent-1.4.12-stable/min_heap.h:73-83 | the earliest event is taken out |
| EvHeap.EraseHole | socket/3rd/libevent-1.4.12-stable/min_heap.h:85-104 | the last event never has to move both up and down from the place of the one that leaves |
| EvHeap.TopIsLeast | socket/3rd/libevent-1.4.12-stable/min_heap.h:63 | the first event of an ordered heap is due before all others |
| EvTime.TimesAreNumbers | socket/3rd/libevent-1.4.12-stable/evutil.h:126-155 | on normal times comparison, sum and difference are those of the microseconds, and the results are normal |
| EvTime.NormalIff | socket/3rd/libevent-1.4.12-stable/evutil.h:152-155 | a time compares with all normal times as its microseconds do if and only if it is normal |
| EvTime.ShiftIff | socket/3rd/libevent-1.4.12-stable/evutil.h:137-145 | setting a time back together with normal ones keeps their order if and only if it is normal |
| EvTime.ShiftReverses | socket/3rd/libevent-1.4.12-stable/event.c:910-917 | two deadlines, one of them not normal, that change their order when the clock goes back |
| EvPoll.PollOp.Add | socket/3rd/libevent-1.4.12-stable/poll.c:205-303 | the arrays, which stay inverse to each other, hold the map from descriptor to reader and writer with the event in its places; without memory they hold what they held |
| EvPoll.PollOp.Del | socket/3rd/libevent-1.4.12-stable/poll.c:310-360 | the places of the event are empty, and a descriptor nobody watches is gone from the map; the last slot takes the free place |
| EvPoll.PollOp.Dispatch | socket/3rd/libevent-1.4.12-stable/poll.c:136-202 | wherever the walk starts, every watcher whose descriptor is ready for it, closed or in error is made active, once and for what it asked, and no other |
| EvPoll.AddThenDelete | socket/3rd/libevent-1.4.12-stable/poll.c:205-360 | deleting an event undoes adding it if and only if it pushed no other event out of its place |
| EvPoll.TwoReaders | socket/3rd/libevent-1.4.12-stable/poll.c:205-360 | of any two readers of a descriptor the second pushes out the first, and deleting either deletes both |
| EvPoll.HoldProper | socket/3rd/libevent-1.4.12-stable/poll.c:103-130 | in every slot the poll bits are those of its reader and writer, back pointers and descriptors fit together |
| EvBuffer.Buffer.Add | socket/3rd/libevent-1.4.12-stable/buffer.c:301-318 | adding is appending, through misalignment, realignment and growth; without memory nothing changes |
| EvBuffer.Buffer.Expand | socket/3rd/libevent-1.4.12-stable/buffer.c:265-298 | there is room for the bytes, and the contents are the same |
| EvBuffer.Buffer.Drain | socket/3rd/libevent-1.4.12-stable/buffer.c:321-342 | draining is dropping |
| EvBuffer.Buffer.Remove | socket/3rd/libevent-1.4.12-stable/buffer.c:193-203 | what is returned and what is left are the contents |
| EvBuffer.Buffer.AddBuffer | socket/3rd/libevent-1.4.12-stable/buffer.c:100-134 | everything moves to the end of the other buffer, by the exchange of the two or by copying |
| EvBuffer.Buffer.Find | socket/3rd/libevent-1.4.12-stable/buffer.c:428-443 | the leftmost place of the pattern, or none if it is nowhere |
| EvMarshal.ListRoundTrip | socket/3rd/libevent-1.4.12-stable/event_tagging.c:188-194 | any list of records of less than 2^31 bytes is read back as it was written and only the bytes that follow are left |
| EvTag.IntFormat | socket/3rd/libevent-1.4.12-stable/event_tagging.c:89-113 | an integer is coded as the number of its hexadecimal digits less one, as few as do, and the digits from the least on, two in a byte with the first in the high half |
| EvTag.TagFormat | socket/3rd/libevent-1.4.12-stable/event_tagging.c:120-142 | a tag is coded seven bits a byte, the least first, as few as do, with a high bit on all bytes but the last |
| EvTag.IntRoundTrip | socket/3rd/libevent-1.4.12-stable/event_tagging.c:227-257 | every 32-bit integer is read back, whatever follows it |
| EvTag.TagRoundTrip | socket/3rd/libevent-1.4.12-stable/event_tagging.c:145-173 | every 32-bit tag is read back, whatever follows it |
| EvMarshal.PeekIsConsumed | socket/3rd/libevent-1.4.12-stable/event_tagging.c:272-326 | there is a length to see ahead if and only if there is a record to skip, and it is what is skipped if and only if the buffer has as many bytes as the header says |
| EvMarshal.CutShort | socket/3rd/libevent-1.4.12-stable/event_tagging.c:272-326 | a record cut short: seven bytes are seen ahead, two are skipped |
| EvMarshal.TooLong | socket/3rd/libevent-1.4.12-stable/event_tagging.c:145-173 | in a buffer whose length modulo 2^32 is zero or 2^31 and more no record can be read, and nothing is taken |
| EvMarshal.IntBytes | socket/3rd/libevent-1.4.12-stable/event_tagging.c:91-114 | the nibbles packed by the loop are the code of the integer |
| EvMarshal.TagBytes | socket/3rd/libevent-1.4.12-stable/event_tagging.c:122-142 | the loop gives the code of the tag |
| EvMarshal.ReadTag | socket/3rd/libevent-1.4.12-stable/event_tagging.c:145-173 | the loop is the decoding function |
| EvMarshal.ReadInt | socket/3rd/libevent-1.4.12-stable/event_tagging.c:227-257 | the loop is the decoding function |
| EvMarshal.Marshal | socket/3rd/libevent-1.4.12-stable/event_tagging.c:188-194 | the code of the record is appended to the buffer |
| EvMarshal.Unmarshal | socket/3rd/libevent-1.4.12-stable/event_tagging.c:331-351 | a record is taken from one buffer and its data appended to the other; it fails exactly if there is no record or no memory, and then at most a header is taken |
| EvMarshal.PeekLength | socket/3rd/libevent-1.4.12-stable/event_tagging.c:272-292 | the length of the first record, with nothing taken |
| EvMarshal.Consume | socket/3rd/libevent-1.4.12-stable/event_tagging.c:316-326 | a record is skipped |
| LuaStrings.StringTable.Run | protocol/3rd/lua-5.1.4/src/lstring.c:22-93 | whatever strings are asked for, however the table is resized, and whatever the collector colours, fixes and sweeps in between: while the object given for some contents stays in the table, equal contents give that object and different contents another |
| LuaStrings.OneObject | protocol/3rd/lua-5.1.4/src/lstring.c:75-93 | the same of any two requests in the history of a run |
| LuaStrings.GivenStays | protocol/3rd/lua-5.1.4/src/lgc.c:407-428 | an object that was given stays in the table, whatever is swept, at least until the collector changes colours again |
| LuaStrings.StringTable.SweepWholeList | protocol/3rd/lua-5.1.4/src/lgc.c:404-428 | exactly the dead strings of the chain that are not fixed are freed, the others turn white in their order, and every string is still in the bucket of its hash |
| LuaStrings.SweepList | protocol/3rd/lua-5.1.4/src/lgc.c:407-428 | the loop over the chain does so |
| LuaStrings.StringTable.Intern | protocol/3rd/lua-5.1.4/src/lstring.c:75-93 | the string has the contents and is never dead; it is the one there is, or else a new one; no other string changes |
| LuaStrings.StringTable.NewString | protocol/3rd/lua-5.1.4/src/lstring.c:50-72 | the new string is in the bucket of its hash; the table is doubled exactly when it is crowded, has fewer than 2^30 buckets and is not being swept |
| LuaStrings.StringTable.Resize | protocol/3rd/lua-5.1.4/src/lstring.c:22-47 | the same strings, each once, in the bucket of its hash for the new size; nothing while strings are swept |
| LuaStrings.HashOf | protocol/3rd/lua-5.1.4/src/lstring.c:77-80 | the loop computes the hash function |
| LuaStrings.HashSkips | protocol/3rd/lua-5.1.4/src/lstring.c:77-80 | strings of one length have the same hash if they agree in every character counted back from the end in steps of the length divided by 32, plus one |
| LuaStrings.HashSamples | protocol/3rd/lua-5.1.4/src/lstring.c:77-80 | the hashes of the empty string, of one and of two characters |
| LuaUpvals.LuaThread.FindUpval | protocol/3rd/lua-5.1.4/src/lfunc.c:53-79 | the one upvalue of the slot, not dead: the one there is, or a new one in its place in the list |
| LuaUpvals.OnePerSlot | protocol/3rd/lua-5.1.4/src/lfunc.c:53-79 | a slot has one upvalue at most |
| LuaUpvals.LuaThread.Close | protocol/3rd/lua-5.1.4/src/lfunc.c:96-112 | exactly the upvalues at or above the level are closed, the dead ones freed, and no read through a live one changes |
| LuaUpvals.ClosingKeepsReads | protocol/3rd/lua-5.1.4/src/lfunc.c:96-112 | an upvalue that is not dead reads the same after closing, and is open exactly if it is below the level |
| LuaUpvals.LuaThread.ReallocStack | protocol/3rd/lua-5.1.4/src/ldo.c:141-149 | every pointer into the stack names the same slot of the moved stack, and no read through an upvalue changes |
| LuaUpvals.LuaThread.CorrectStack | protocol/3rd/lua-5.1.4/src/ldo.c:126-138 | top, base, the open upvalues and the pointers of every call move by the same distance |
| LuaSort.AuxSort | protocol/3rd/lua-5.1.4/src/ltablib.c:193-254 | under any strict weak order the range is sorted and a rearrangement of what it was, nothing outside it changes, the error branches are not reached, and any recursion depth from the binary logarithm of the length on is enough |
| LuaSort.Sort | protocol/3rd/lua-5.1.4/src/ltablib.c:256-264 | the values from 1 to n are sorted and a permutation, at a depth of the binary logarithm of n |
| LuaSort.Partition | protocol/3rd/lua-5.1.4/src/ltablib.c:219-243 | the pivot ends between the values that do not come after it and those that do not come before it |
| LuaSort.Scan | protocol/3rd/lua-5.1.4/src/ltablib.c:219-239 | the two scans stop inside the range and leave the sides of the pivot |

## Left out

- Collector pacing (threshold, debt, estimate), what a finalizer does when it is called (any steps of the program may
  follow), and allocation failure in the collector; the registry is a fixed root. A thread's list of open upvalues is
  derived from the upvalues in `Gc*`, and is a list in `LuaUpvals`.
- GcCollector.Collector.FullGC: stated without finalizers; with them the objects a finalizer reaches survive the
  cycle.
- Expressions with upvalues, globals, indexing, calls, varargs and concatenation; the order of the fields in an
  instruction; numbers are reals with abstract operations, so that negative zero is not told from zero.
- CodeParse.OnePassIs: of tokens without concatenation, since the code for it is not modelled.
- CodeParse.TokensValue: likewise of tokens without concatenation.
- CodeSubexpr.Subexpr: likewise of tokens without concatenation.
- CodeRoom.ExpressionCompiles: sufficient only; the counts are upper bounds, since folding, shared constants and
  merged instructions need less.
- CodeClean.PlainIsClean: sufficient only; the sharp condition is `CleanIn`, which follows the compiler.
- Statements, scoping and function bodies in `lparser.c`; a simple expression, one in parentheses included, is one
  token of `LuaParser`, and concatenation is an operator of the parser only.
- EvBase.EventBase.ProcessActive: how often a callback is called for one event (`ev_ncalls`) is not modelled; what the
  callbacks of one event do is any sequence of calls. Calls of the loop from inside a callback are not among them.
- `event_base_loop`, signals, `event_once`, `event_reinit`, other backends than poll, and a change of the number of
  priorities.
- EvMarshal.Marshal: memory is taken to suffice, as the code does not look at the results of `evbuffer_add`.
- `evtag_marshal_int`, `evtag_marshal_string`, `evtag_marshal_timeval` and their readers: the same codes composed,
  easy members.
- EvTag.TagRoundTrip: what a shift by 32 bits and more gives, in a tag of more than five bytes, is a parameter.
- Buffer callbacks, `evbuffer_readline`, reading and writing descriptors, and printing into a buffer.
- DnsWrite.DnsnameToLabels: the label table is not optional.
- The resolver's queues, name servers and transaction ids in `evdns.c`.
- LuaStrings.StringTable.Intern: the bucket is the hash modulo the size, which is the mask that the code uses for
  sizes that are powers of two; the limit on string length is not modelled.
- LuaUpvals.LuaThread.ReallocStack: the slots in use must fit into the new size, and memory suffices.
- LuaSort.AuxSort: an order function that is not a strict weak order, or that changes the table, is not modelled.
- The repository's own C++ sources, the Lua libraries, the API and the bytecode checker.
