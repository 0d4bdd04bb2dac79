# Verified models of the eotan components

This project models, in Dafny, the parts of the eotan operating system whose correctness is hardest to see from the
code, and proves what their callers rely on.

- **Range coder** (`lib/librc`). A byte string is narrowed to a sub-interval with an adaptive model. `RangeSpec` does
  this with unbounded numbers; `RangeRegisters` and `RangeCoder` do it with 32-bit registers, a pending byte and a run
  of pending 0xff bytes, and are proved to emit exactly the same code. `LowBits` and `Fenwick` keep the frequency
  table of `FrequencyTable` in a binary indexed tree. `ZeroRuns` is the separate coder of runs of zeros.
- **Scheme** (`app/nscm`). `Scheme` gives the meaning of core expressions by a direct evaluator, `SchemeArithmetic`
  the laws of its procedures on numbers and pairs. `SchemeCode` is the code the compiler emits, `SchemeWalk` the
  compiler itself, with code buffers, patched branches and static frames; `SchemeMachine` is the machine, step by
  step, and `SchemeVm` the machine over a parameter array. `SchemeSimulation` proves that compiled code does what the
  evaluator says. `SchemeAlike`, `SchemeDerived`, `SchemeRelink` and `SchemeReader` are about the derived forms that
  the reader rewrites in place (sections 4.2 and 7.3 of R7RS). `SchemeHeap` and `SchemeOperands` are the collector and
  what compiled code needs of it, and `SchemeFrames` says how the stack lies that the collector walks over.
- **TFS** (`lib/libtfs`). `TfsAllocator` is the bitmap allocator, `TfsSlots` and `TfsImage` say who names which block,
  `TfsFiles` and `TfsBytes` what bytes a file has, `TfsSpace` what blocks it takes, `Tfs` has the operations,
  `TfsDirectory` the records of a directory, and `TfsDirectoryRun` runs of changes to one.
- **Block cache** (`lib/libvfs/cache.c`). `BlockCache`.
- **Kernel** (`kernel/`). `Scheduler` has threads and ready queues, `Rendezvous` and `RendezvousSteps` the state of
  the ports and what each step does to it, `LostKeys` the keys that nobody gives back, `Passing` what a thread that
  was woken comes back with, `Kernel` the service calls and runs of them.
- **Memory** (`drivers/i686/memory.c`, `kernel/palloc.c`). `PageTables` has one space, `AddressSpaces` several over
  the same memory, `PageAllocator` the frames.

`Wrappers`, `Octets`, `Lists`, `Radix` and `Bitmap` hold what several of these share. Code that updates state in place
is modelled by classes and loops, each proved against functions on values; the lemmas are about those functions.

Integers are unbounded unless a width is written out: the coder's registers are 32 bits wide and wrap around, bytes are
bytes, and tags are packed as the code packs them.

## Model

| member | source | states |
|---|---|---|
| FrequencyTable.UpdateKeepsModel | lib/librc/bit_common.c:73-87 | Counting a symbol, with or without halving, keeps every count at least 1 and the total below the limit. |
| FrequencyTable.UpdateMeans | lib/librc/bit_common.c:73-87 | Only the count of the symbol seen grows, by the increment; when the total reaches the limit every count becomes its upper half. |
| FrequencyTable.IntervalInside | lib/librc/bit_encode.c:46-62 | Every symbol's interval lies inside the total and is never all of it. |
| FrequencyTable.LocateUnique | lib/librc/bit_decode.c:34-56 | At most one symbol's cumulative interval holds a value, and it is the one the decoder must find. |
| LowBits.CoversStep | lib/librc/bit_common.c:33-43 | The walk upwards by lowest set bits visits exactly the nodes whose block holds the entry. |
| Fenwick.Frequency.constructor | lib/librc/bit_common.c:45-55 | The tree starts as the table in which every symbol counts once. |
| Fenwick.Frequency.Inc | lib/librc/bit_common.c:33-43 | The tree then represents the table with one entry changed and the others as they were. |
| Fenwick.Frequency.Count | lib/librc/bit_common.c:57-71 | The value read off the nodes is the table's entry. |
| Fenwick.Frequency.Calc | lib/librc/bit_encode.c:33-44 | The sum over nodes is the cumulative count below the symbol. |
| Fenwick.Frequency.Descend | lib/librc/bit_decode.c:31-64 | The halving descent ends at the one symbol whose interval holds the value, with the cumulative count below it. |
| Fenwick.Frequency.UpdateModel | lib/librc/bit_common.c:73-87 | The tree follows the plain table through counting and halving, and stays a model. |
| RangeSpec.NarrowReady | lib/librc/drc_encode.c:47-81 | After a symbol and normalisation the range is wide enough for the next symbol, so no symbol's share is ever empty. |
| RangeSpec.RunWithin | lib/librc/drc_encode.c:112-125 | The final low end lies in every interval passed on the way. |
| RangeSpec.SymbolRead | lib/librc/drc_decode.c:45-83 | A code inside the narrowed interval makes the decoder stand on that symbol and leaves it at the same place of the next interval. |
| RangeSpec.DecodeRun | lib/librc/drc_decode.c:30-83 | From any interval on the way, decoding reproduces the rest of the message and stops at its end. |
| RangeSpec.RoundTrip | lib/librc/drc_decode.c:30-83 | For every byte string, decoding its code gives it back, ends normally and leaves no byte unread. |
| RangeRegisters.CarryStops | lib/librc/drc_encode.c:47-81 | A carry never passes the pending byte, which stays a byte. |
| RangeRegisters.CarryIntoByte | lib/librc/drc_encode.c:47-81 | With no 0xff pending, taking a carry into the byte leaves the exact low end denoted. |
| RangeRegisters.CarryThroughRun | lib/librc/drc_encode.c:47-81 | A carry through a run of 0xff turns them to zeros and leaves the exact low end denoted. |
| RangeRegisters.ShiftSettles | lib/librc/drc_encode.c:47-81 | When the top byte of the low end is below 0xff the pending bytes are final, and the registers denote the interval shifted by a byte. |
| RangeRegisters.ShiftDelays | lib/librc/drc_encode.c:47-81 | A top byte 0xff joins the run, and the registers denote the interval shifted by a byte. |
| RangeRegisters.Advance | lib/librc/bit_encode.c:46-62 | Moving the low end up may wrap around; the carry records it, and the exact low end stays denoted. |
| RangeRegisters.FirstByteIsZero | lib/librc/encode.c:48-53 | The first byte put is always 0, so dropping it loses nothing. |
| RangeCoder.Coder.constructor | lib/librc/drc_common.c:30-40 | The registers start with the widest range, nothing pending and nothing put. |
| RangeCoder.Coder.Put | lib/librc/encode.c:43-53 | The first byte put is dropped, every later one is appended to the output. |
| RangeCoder.Coder.PutBuf | lib/librc/drc_encode.c:33-45 | The pending byte and then the run are put. |
| RangeCoder.Coder.EncodeNormalize | lib/librc/drc_encode.c:47-81 | What was put, the pending bytes and the registers denote the normalised interval exactly, with no carry left. |
| RangeCoder.Coder.EncodeSymbol | lib/librc/bit_encode.c:46-62 | The registers denote the exact interval narrowed to the symbol, and the model has counted the symbol. |
| RangeCoder.Coder.Finish | lib/librc/drc_encode.c:83-110 | All bytes put together are the exact low end, in base 256. |
| RangeCoder.Coder.Encode | lib/librc/drc_encode.c:112-125 | The output is the exact code of the whole input, and the byte dropped before it was 0. |
| RangeCoder.Coder.DecodeNormalize | lib/librc/drc_decode.c:30-43 | Bytes are shifted in until the range is wide; it fails exactly at the end of the input. |
| RangeCoder.Coder.DecodeSymbol | lib/librc/bit_decode.c:31-64 | The symbol whose interval holds the code is taken off and counted. |
| RangeCoder.Coder.Decode | lib/librc/drc_decode.c:45-83 | On arbitrary bytes the decoder does what decoding with exact numbers does, including where it gives up. |
| RangeCoder.Transport | lib/librc/drc_encode.c:112-125 | Encoder and decoder run one after the other give back every byte string; every byte of the code is read and the dropped byte was 0. |
| ZeroRuns.Encode | lib/librc/zle_encode.c:61-93 | The loop with its one-byte pushback computes the encoding: runs of zeros as digits, 0xfe and 0xff escaped. |
| ZeroRuns.Decode | lib/librc/zle_decode.c:61-101 | The loop with its one-byte pushback computes the decoding, on any bytes. |
| ZeroRuns.ReadNumber | lib/librc/zle_decode.c:61-101 | The digits read add up to the number whose digits they are, and the byte behind them is put back. |
| ZeroRuns.RoundTrip | lib/librc/zle_encode.c:61-93 | For every byte string: decoding its encoding gives it back exactly when every run's length plus one fits an int, and otherwise shifts past the width of an int. |
| ZeroRuns.LongRun | lib/librc/zle_decode.c:61-101 | Every run of 2^31 - 1 or more zeros leads past the width of an int. |
| ZeroRuns.Transport | lib/librc/zle_decode.c:61-101 | The two programs, one after the other, give back the bytes whenever every run fits. |
| SchemeWalk.Compiler.FindLocal | app/nscm/pcompile.c:60-79 | The search through the static frames finds the slot of a variable of the running lambda, counted from the top of the stack, tells variables of outer lambdas apart, and fails exactly for the rest. |
| SchemeWalk.Compiler.ItemFor | app/nscm/pcompile.c:469-514 | A symbol is addressed in the own frame, in the closure's environment, as a library procedure or as a global, in that order, and outer variables are asked for once. |
| SchemeWalk.Compiler.ToClosure | app/nscm/pcompile.c:565-591 | The references of a closure are those of the variables it asks for, and own slots among them are listed for boxing. |
| SchemeWalk.Compiler.WalkIf | app/nscm/pcompile.c:297-318 | Both patched branch operands lead where the code of a conditional must go. |
| SchemeWalk.Compiler.WalkLambda | app/nscm/pcompile.c:319-341 | A lambda is compiled with lists of its own, and loaded or created according to whether it asks for outer variables. |
| SchemeWalk.Compiler.WalkCall | app/nscm/pcompile.c:342-430 | A call becomes an immediate instruction, or a frame, its arguments and a transfer. |
| SchemeWalk.Compiler.Walk | app/nscm/pcompile.c:271-451 | The recursive walk appends exactly the code of the expression, restores the frame stack, and rejects exactly the expressions with a literal in the place of a procedure. |
| SchemeWalk.CompileProgram | app/nscm/pcompile.c:232-248 | The compiler gives the code of the program, or rejects it. |
| SchemeLists.LambdaRequests | app/nscm/pcompile.c:516-547 | A compiled lambda asks only for variables its surroundings have, and boxes each of its own slots at most once. |
| SchemeArithmetic.DifferenceUndone | app/nscm/base.c:311-350 | Adding what was subtracted gives back what it was subtracted from. |
| SchemeArithmetic.DivisionExact | app/nscm/base.c:422-464 | Division fails exactly by 0, and gives the one quotient whose remainder is smaller than the divisor and has the sign of the dividend. |
| SchemeArithmetic.SumMeans | app/nscm/base.c:267-350 | Addition gives the sum of all arguments; subtraction the first less the sum of the others, or the negative of a single one. |
| SchemeArithmetic.ProductMeans | app/nscm/base.c:373-399 | Multiplication gives the product of all arguments. |
| SchemeArithmetic.QuotientMeans | app/nscm/base.c:422-464 | Dividing by one argument after the other is dividing by their product, and fails exactly if one of them is 0. |
| SchemeArithmetic.OrderIrrelevant | app/nscm/base.c:267-399 | Addition and multiplication do not depend on the order of their arguments. |
| SchemeArithmetic.PairsHold | app/nscm/nscm.c:909-945 | What is put into a pair comes out of it, and taking from anything else errs. |
| SchemeArithmetic.ProgramMeans | app/nscm/interpret.c:219-239 | A program that applies such a procedure to two literals gives their sum, difference, product or quotient, and nothing else. |
| SchemeRelation.PrimAgrees | app/nscm/interpret.c:35-41 | Library procedures give on cells what they give on values, and fail together. |
| SchemeRelation.ToIndirectAt | app/nscm/interpret.c:259-268 | Boxing puts exactly the listed slots into boxes. |
| SchemeSimulation.FetchItem | app/nscm/interpret.c:66-75 | The slot a variable is addressed by holds its value, boxed if anybody captures it. |
| SchemeSimulation.Simulate | app/nscm/pcompile.c:271-451 | Code in any position leaves the evaluator's value in d1, ends just past itself and restores stack, return stack and environment; it throws where the evaluator errs and runs on where it does not end. |
| SchemeSimulation.SimCall | app/nscm/interpret.c:105-140 | A call returns just past itself, with the value applied and the callee's frame gone. |
| SchemeSimulation.SimEntry | app/nscm/interpret.c:105-140 | A closure entered with its frame on the stack returns its value to its caller. |
| SchemeSimulation.SimTail | app/nscm/pcompile.c:297-318 | Code in tail position returns the value from the running lambda. |
| SchemeSimulation.SimTailCall | app/nscm/interpret.c:141-195 | A tail call returns where the running lambda would have, with the running frame gone. |
| SchemeSimulation.CompilerCorrect | app/nscm/interpret.c:43-241 | A compiled program halts with exactly the value the evaluator gives and throws exactly when it errs, and so runs for ever exactly when it does. |
| SchemeSimulation.StopsOnce | app/nscm/interpret.c:43-241 | A machine stops in one state, whenever it is looked at. |
| SchemeSimulation.TailKeepsStacks | app/nscm/interpret.c:141-195 | A closure called in tail position takes the place of its caller's frame and leaves the return stack as it is. |
| SchemeSimulation.TailChangesNothing | app/nscm/pcompile.c:428-429 | The same body compiled with TAIL and without reaches the same machine: the return with the evaluator's value, or the throw where the evaluator errs. |
| SchemeVm.Vm.CreateFrame | app/nscm/interpret.c:95-104 | A new frame holds the callee, the count and cleared slots on top of the old stack, unless the array is full. |
| SchemeVm.Vm.BoxArguments | app/nscm/interpret.c:259-268 | The loop over the array boxes the listed slots. |
| SchemeVm.Vm.CopySlots | app/nscm/interpret.c:243-257 | The loop copies the captured slots, boxes and all. |
| SchemeVm.Vm.MoveFrame | app/nscm/interpret.c:141-155 | Copying the overlapping frame from its far end moves it over the frame below. |
| SchemeVm.Vm.Call | app/nscm/interpret.c:105-140 | The array machine makes the step of a call, or the return stack is full. |
| SchemeVm.Vm.Tail | app/nscm/interpret.c:141-195 | The array machine makes the step of a tail call; it never overflows. |
| SchemeVm.Vm.Ret | app/nscm/interpret.c:196-206 | The array machine makes the step of a return. |
| SchemeVm.Vm.Dispatch | app/nscm/interpret.c:43-241 | One turn of the dispatch loop is one step of the machine; it overflows only where a fixed stack is full. |
| SchemeInterpreter.NeverWild | app/nscm/interpret.c:43-241 | Compiled code never runs into a word, a slot or a frame that is not there. |
| SchemeInterpreter.Interpret | app/nscm/nscm.c:288-316 | Compiling and running over fixed stacks: a result is the form of the program's value, a failure is an error of the program, and rejection is the compiler's. |
| SchemeHeap.Heap.Create | app/nscm/nscm.c:318-344 | A new cell is one that was not in use, and all others are as they were. |
| SchemeHeap.Heap.Protect | app/nscm/nscm.c:516-527 | A cell is protected once more; immediates are left alone. |
| SchemeHeap.Heap.Unprotect | app/nscm/nscm.c:529-539 | Undoes one protection, and the cell goes back to the other list with the last one. |
| SchemeHeap.Heap.MarkCell | app/nscm/nscm.c:584-610 | Marks all unmarked cells a cell leads to and nothing else; it ends because the unmarked cells get fewer. |
| SchemeHeap.WalkedAll | app/nscm/nscm.c:572-581 | The collector looks at a first part of the frames, and at all of them exactly when no frame has the empty list as its callee. |
| SchemeHeap.WalkedTooFew | app/nscm/nscm.c:572-581 | A stack on which it stops short of the frame that holds the running code. |
| SchemeHeap.Heap.MarkFrames | app/nscm/nscm.c:572-581 | Marks what the frames lead to, up to the first whose callee is the empty list. |
| SchemeHeap.Heap.GcMark | app/nscm/nscm.c:552-582 | Marks what the tables, the protected cells, d1 and those frames lead to, and nothing else. |
| SchemeHeap.Heap.Destroy | app/nscm/nscm.c:346-385 | One cell goes from its list, its symbol table and the count. |
| SchemeHeap.Heap.GcSweep | app/nscm/nscm.c:612-629 | Exactly the marked cells are kept, and no mark is left. |
| SchemeHeap.Heap.Gc | app/nscm/nscm.c:541-550 | A collection, when it is due, keeps exactly the reachable cells with their contents unchanged and all marks clear; no pointer field of a kept cell dangles, every root is kept, and a kept cell that is no root is in a pointer field of another kept cell. |
| SchemeHeap.MarkedCell | app/nscm/nscm.c:584-610 | Marking a cell first and then its children is marking everything it leads to. |
| SchemeHeap.EdgeMeans | app/nscm/nscm.c:591-610 | What marking follows from a cell is both halves of a pair, a closure or an indirect cell, every word of a vector, and the four tables of code. |
| SchemeHeap.RootMeans | app/nscm/nscm.c:552-582 | The roots are the names, the protected cells, d1, and the callees and arguments of the frames looked at. |
| SchemeHeap.HeldByAnother | app/nscm/nscm.c:584-610 | What is reachable and no root is in a pointer field of another reachable cell. |
| SchemeHeap.MarkedExactly | app/nscm/nscm.c:552-582 | Starting with no marks, the marked cells are just the reachable ones. |
| SchemeHeap.KeptClosed | app/nscm/nscm.c:612-629 | No kept cell points to a freed one. |
| SchemeOperands.CodeBuffer.Append | app/nscm/pcompile.c:194-205 | Every cell an instruction loads is in the data table, or held by a name. |
| SchemeOperands.CodeBuffer.Finish | app/nscm/pcompile.c:220-230 | The finished code has its four tables first, and what its instructions load is in the data table or held by a name. |
| SchemeOperands.OperandReach | app/nscm/nscm.c:584-610 | What an instruction of reachable code loads is reachable, though the collector does not look at instructions. |
| SchemeOperands.Collect | app/nscm/nscm.c:541-550 | A collection frees nothing that code can load whose frame the collector looks at, nor anything that hangs on it. |
| SchemeFrames.StepFramed | app/nscm/interpret.c:62-239 | Every instruction of code that keeps to its frames leaves the stack as whole frames: those being made, the running code's own, and the same for every caller. |
| SchemeFrames.CallFramed | app/nscm/interpret.c:105-140 | A call starts the callee in the frame just made for it, whose callee it is. |
| SchemeFrames.TailFramed | app/nscm/interpret.c:141-195 | A tail call puts the frame just made in the place of the caller's. |
| SchemeFrames.CompilePiece | app/nscm/pcompile.c:271-451 | The code of every expression keeps to its frames: it ends with those it started with, stores only into arguments of the frame made last, and makes tail calls only where it is making no other. |
| SchemeFrames.PieceIf | app/nscm/pcompile.c:297-318 | Both ways through a conditional meet with the same frames being made. |
| SchemeFrames.LaidMeans | app/nscm/nscm.c:572-581 | Such a stack is frames to its end, and every call that has not returned has a frame of its own, in order, with the code that runs as its callee. |
| SchemeFrames.EveryCallHasItsFrame | app/nscm/interpret.c:43-241 | So it is at every step of every compiled program, whether or not it ends. |
| SchemeFrames.NeverWild | app/nscm/interpret.c:43-241 | No step of a compiled program reads a word, a slot or a frame that is not there. |
| SchemeFrames.NilFrameOnTop | app/nscm/interpret.c:196-206 | A program in which a frame being made for the empty list is on top when a call returns and a collection may come, above the frame of the code that is running. |
| SchemeAlike.EvalLike | app/nscm/parse.c:392-437 | Environments that agree on the free variables of an expression give it the same outcome, up to what closures captured without using it. |
| SchemeDerived.AndPreserved | app/nscm/parse.c:363-391 | The core form of `and` has the value the operands in turn give it. |
| SchemeDerived.OrPreserved | app/nscm/parse.c:392-437 | The core form of `or` has the value the operands in turn give it, if no operand but the first uses `v` from outside. |
| SchemeDerived.OrCaptures | app/nscm/parse.c:392-437 | Whenever the first operand is false and the second is `v`, the rewriting is false whatever `v` is. |
| SchemeDerived.LetPreserved | app/nscm/parse.c:438-475 | The core form of `let` has the value of the body with the variables bound to values found outside. |
| SchemeDerived.BeginPreserved | app/nscm/parse.c:353-362 | The core form of `begin` has the value of its last expression. |
| SchemeRelink.TurnStep | app/nscm/parse.c:372-387 | One turn of the loop adds one level and moves the hole in it down, whatever was built before. |
| SchemeRelink.Reader.Rewrite | app/nscm/parse.c:363-437 | Relinking the cells of an `and` or `or` list leaves the nested core form of its operands, and no other cell is touched. |
| SchemeRelink.Reader.RewriteBegin | app/nscm/parse.c:353-362 | Relinking a `begin` list leaves a call of a procedure with its expressions as body; without an expression it fails. |
| SchemeRelink.Reader.SplitBindings | app/nscm/parse.c:453-470 | The bindings are taken apart in place into the list of keys and the list of values, in order. |
| SchemeRelink.Reader.RewriteLet | app/nscm/parse.c:438-475 | Relinking a `let` list leaves a call of a procedure on the values; without bindings or body it fails and changes nothing. |
| SchemeReader.ReadForm | app/nscm/parse.c:363-437 | With its keywords clear, the rewritten list is read by the compiler as the core form of the operands. |
| SchemeReader.AndReads | app/nscm/parse.c:363-391 | `and`, rewritten and read, has the value its operands in turn give it, for every operand list, where `if` is not a variable. |
| SchemeReader.OrReads | app/nscm/parse.c:392-437 | The same for `or`, where `if` and `lambda` are not variables and the later operands do not use `v`. |
| SchemeReader.LetReads | app/nscm/parse.c:438-475 | `let`, rewritten and read, has the value of its body with the variables bound, where `lambda` is not a variable outside it. |
| SchemeReader.BeginReads | app/nscm/parse.c:353-362 | `begin`, rewritten and read, has the value of its last expression, where `lambda` is not a variable. |
| SchemeReader.AndExact | app/nscm/pcompile.c:469-476 | With two or more operands, `and` is read as its core form exactly where `if` is not a variable. |
| SchemeReader.OrExact | app/nscm/pcompile.c:469-476 | With two or more operands, `or` is read as its core form exactly where neither `if` nor `lambda` is a variable. |
| SchemeReader.LetExact | app/nscm/pcompile.c:469-476 | `let` is read as its core form exactly where `lambda` is not a variable. |
| SchemeReader.BeginExact | app/nscm/pcompile.c:469-476 | `begin` is read as its core form exactly where `lambda` is not a variable. |
| SchemeReader.AndCaptures | app/nscm/pcompile.c:283-318 | Inside a lambda with a parameter `if` bound to `cons`, the rewriting of `(and 1 2)` fails, though its value is 2. |
| SchemeReader.ReadsOnce | app/nscm/pcompile.c:271-451 | A word reads as one expression at most, however its cells are looked at. |
| SchemeReader.RewriteForm | app/nscm/parse.c:363-437 | After the relinking, the cells themselves read as the core form of the operands, which lie in other cells and are as they were. |
| SchemeReader.RewriteLet | app/nscm/parse.c:438-475 | The same for `let`. |
| SchemeReader.RewriteBegin | app/nscm/parse.c:353-362 | The same for `begin`. |
| BlockCache.Cache.constructor | lib/libvfs/cache.c:74-88 | All buffers start free, and every block reads as the device has it. |
| BlockCache.Cache.Get | lib/libvfs/cache.c:133-180 | The pinned buffer has the block's contents and no contents change; it fails exactly if the block is not cached and cannot be read, or no buffer is free and the one to evict cannot be written. |
| BlockCache.Cache.Create | lib/libvfs/cache.c:90-131 | The pinned buffer is cleared and other blocks are as they were; it fails exactly if the block is not cached and there is no room for it. |
| BlockCache.Cache.Modify | lib/libvfs/cache.c:182-193 | The buffer is marked, nothing else changes. |
| BlockCache.Cache.Release | lib/libvfs/cache.c:195-215 | One pin goes, and with the last one the buffer may be evicted; a change must be marked by then. |
| BlockCache.Cache.Invalidate | lib/libvfs/cache.c:217-228 | What was only cached of an unpinned block is gone, and nothing else. |
| BlockCache.Cache.Flush | lib/libvfs/cache.c:230-283 | The device then agrees with every block that nobody is changing; it fails exactly if a changed buffer cannot be written. Without unmounting the table is as it was; with it, only unpinned blocks of the device are given up, their buffers are free, and if it succeeds none is left. |
| BlockCache.RemainsNow | lib/libvfs/cache.c:230-283 | Told by the log of calls: after unmounting, a block of the device that is still cached is pinned, and blocks of other devices are untouched. |
| BlockCache.DeviceNext | lib/libvfs/cache.c:230-283 | What the device has of a block is always contents the block once had, no older than its last flush. |
| BlockCache.HandleHolds | lib/libvfs/cache.c:133-180 | Whoever has a block pinned finds in its buffer the contents last given to the block, by anyone. |
| BlockCache.Do | lib/libvfs/cache.c:90-283 | Each call keeps the cache in agreement with a plain store, and its outcome is the plain store's. |
| BlockCache.Run | lib/libvfs/cache.c:90-283 | Over any calls by any clients, with any transfers failing, as long as changes are marked before the last pin goes and no pinned block is invalidated: a block that is got has the contents last given to it, a flush that goes through makes the device agree, and invalidating loses nothing that was flushed. |
| Bitmap.WordLowest | kernel/palloc.c:35-59 | The first set bit of the first word that is not zero is the lowest free unit. |
| PageAllocator.MemoryMap.Palloc | kernel/palloc.c:35-59 | Gives the lowest free page, and none exactly when the count is zero; the count stays that of the free pages. |
| PageAllocator.MemoryMap.Pfree | kernel/palloc.c:67-92 | A used page is free again and counted; other pages, and one that is free already, are left alone. |
| TfsAllocator.SameBit | lib/libtfs/block.c:163-191 | Counting in bytes when freeing and in words when allocating leads to the same bit. |
| TfsAllocator.AllocateKeeps | lib/libtfs/block.c:41-83 | The lowest free block is a data block below the size of the file system, and the hand may move past it. |
| TfsAllocator.ReleaseKeeps | lib/libtfs/block.c:163-191 | Freeing a block moves the hand back if need be, so that nothing is free below it. |
| TfsAllocator.Blocks.Allocate | lib/libtfs/block.c:41-83 | Gives the lowest free block, never one at or past the end of the file system, and 0 exactly when the count of free blocks is zero. |
| TfsAllocator.Blocks.Deallocate | lib/libtfs/block.c:163-191 | Frees a used data block and counts it; blocks below the data are refused. |
| TfsBytes.CalcUnique | lib/libtfs/block.c:101-104 | The block count of a size is the only one that just holds it. |
| TfsBytes.WrittenContent | lib/libtfs/file.c:146-208 | Blocks written one after the other make the file the old bytes with the new ones spliced in. |
| TfsImage.EntryAdded | lib/libtfs/block.c:216-252 | A fresh second-level block keeps every block named once and every other slot and byte as it was. |
| TfsImage.RefAdded | lib/libtfs/block.c:216-252 | So does filling an entry of one. |
| TfsImage.RefDropped | lib/libtfs/block.c:106-140 | An entry that is cleared was the only name of its block, which may be freed. |
| TfsImage.EntryDropped | lib/libtfs/block.c:142-161 | So it is with a second-level block that names nothing any more. |
| TfsImage.NodeAdded | lib/libtfs/block.c:260-282 | A fresh block becomes an inode that names nothing. |
| TfsImage.NodeDropped | lib/libtfs/block.c:284-301 | The block of an inode that names nothing may be freed. |
| Tfs.FileSystem.GetBlockNo | lib/libtfs/block.c:193-214 | Gives the block the two-level map has there, and 0 for none or past its end. |
| Tfs.FileSystem.SetBlockNo | lib/libtfs/block.c:216-252 | The block becomes the `nth` of the file and nothing else changes; it fails exactly without a block, past the largest file, or if a second-level block is needed and none is free. |
| TfsSpace.NeedsStep | lib/libtfs/block.c:216-252 | One more block takes one, and a second-level block at the start of a row. |
| TfsSpace.AffordsNoMore | lib/libtfs/file.c:146-208 | When the next block cannot be had, the file cannot grow by another byte. |
| Tfs.FileSystem.Write | lib/libtfs/file.c:146-208 | It goes through exactly if the bytes are within the file, or the inode can name its blocks and the new data blocks and second-level blocks are free; otherwise it writes as many bytes as it can. The file is the old bytes with those spliced in, other files are as they were, and the free blocks are counted exactly. |
| Tfs.FileSystem.Read | lib/libtfs/file.c:95-143 | A read inside the file gives the bytes there; it fails exactly if it runs past the last block of the file. |
| Tfs.FileSystem.ShortenBlocks | lib/libtfs/block.c:106-161 | Exactly the blocks from a number on are freed, and second-level blocks left with nothing. |
| Tfs.FileSystem.Shorten | lib/libtfs/block.c:85-99 | The file is cut to the size, other files are as they were, and blocks used plus free stay the same. |
| Tfs.FileSystem.AllocateInode | lib/libtfs/block.c:260-282 | A new empty file, or none exactly when no block is free. |
| Tfs.FileSystem.DeallocateInode | lib/libtfs/block.c:284-301 | The file is gone, the others are as they were, and every block it had is free. |
| Tfs.NamedOnce | lib/libtfs/block.c:193-252 | In a sane image every block reachable from an inode is reachable once, is a data block, and is marked used. |
| Tfs.FileSystem.Do | lib/libtfs/file.c:146-208 | Each operation does to the files, as byte strings, and to the count of free blocks what the plain meaning says, and succeeds exactly when that count allows it. |
| Tfs.FileSystem.Run | lib/libtfs/file.c:146-208 | Any run of operations on an image is a run of the same operations on a map of byte strings and a count of free blocks; every block stays named once, and none is lost unless a write was cut short. |
| TfsDirectory.RealNameLen | include/fs/tfs.h:94-97 | The name field fills a record up to a multiple of four bytes. |
| TfsDirectory.EntriesConcat | lib/libtfs/directory.c:36-112 | Bytes that parse, one after the other, parse as the records of both. |
| TfsDirectory.RecordParses | lib/libtfs/directory.c:210-228 | A record as it is written parses as its entry and nothing more. |
| TfsDirectory.FindHit | lib/libtfs/directory.c:114-148 | A hit of the scan is the first record that matches, and what precedes it parses. |
| TfsDirectory.FindSound | lib/libtfs/directory.c:114-148 | In a directory that parses, no scan meets a malformed record. |
| TfsDirectory.RemovedParses | lib/libtfs/directory.c:256-327 | Cutting out the bytes of the hit takes just that entry away and keeps the others in order. |
| TfsDirectory.Getdents | lib/libtfs/directory.c:36-112 | Lists exactly the entries asked for, in order. |
| TfsDirectory.Walk | lib/libtfs/directory.c:114-148 | Finds the first entry with the name, and nothing exactly when there is none. |
| TfsDirectory.TornUnparsed | lib/libtfs/directory.c:210-228 | Records followed by the start of one more parse only if that start is empty. |
| TfsDirectory.AppendEntry | lib/libtfs/directory.c:210-228 | Adds one record at the end, and the scan then finds it if the name was new; it succeeds exactly if the directory can grow so far. When it fails the directory keeps what was written, other files are as they were, and with records that fit in a block the directory still parses exactly if it ended where a block ends. |
| TfsDirectory.MoveDown | lib/libtfs/directory.c:294-324 | The records behind the hole are moved down over it, one by one. |
| TfsDirectory.RemoveEntry | lib/libtfs/directory.c:256-327 | In a directory that parses, exactly the first record of the file goes and the others stay in order, or there was none; it never stops half way. |
| TfsDirectoryRun.ChangeOnce | lib/libtfs/directory.c:210-327 | An entry is added or taken out, or nothing changes, or the directory no longer parses because an append was cut off. |
| TfsDirectoryRun.Run | lib/libtfs/directory.c:210-327 | After any run of appends and removals a directory that parsed holds exactly what the ones that succeeded come to, unless an append was cut off; no other file changes. |
| Scheduler.LinkKeeps | kernel/ready.c:61-66 | Linking a thread keeps queues and states in step. |
| Scheduler.UnlinkKeeps | kernel/sync.c:34-41 | So does unlinking one. |
| Scheduler.SwitchKeeps | kernel/ready.c:109-140 | Switching keeps queues and states in step, and only the new thread runs. |
| Scheduler.SwitchMeans | kernel/ready.c:109-140 | Only the two threads change, and only in state: the new one runs, the old one is ready if it was running and otherwise stays parked, suspended or dormant. |
| Scheduler.ChosenOnce | kernel/ready.c:95-107 | There is one thread at the head of the most urgent queue. |
| Scheduler.Threads.FindNext | kernel/ready.c:95-107 | Gives the head of the most urgent queue that is not empty, though marks may be stale. |
| Scheduler.Threads.Dispatch | kernel/ready.c:109-140 | Switches to that thread, and changes the states of the two threads only. |
| Scheduler.Threads.Rotate | kernel/ready.c:68-82 | A thread at the head of its queue goes to its end. |
| Scheduler.Threads.Wait | kernel/sync.c:34-41 | The running thread parks and another is chosen. |
| Scheduler.Threads.Release | kernel/sync.c:43-52 | A waiting thread becomes ready at the end of its queue; a suspended one stays suspended. |
| Scheduler.Threads.Start | kernel/thread.c:202-229 | A dormant thread becomes ready at its base priority, and the most urgent thread runs. |
| Scheduler.Threads.End | kernel/thread.c:231-240 | The running thread becomes dormant and another is chosen. |
| Scheduler.Threads.Terminate | kernel/thread.c:251-296 | Another thread becomes dormant; the running one and dormant ones are refused. |
| Scheduler.Threads.Suspend | kernel/thread.c:298-347 | The state moves to its suspended counterpart; only a thread that suspends itself gives way. |
| Scheduler.Threads.Resume | kernel/thread.c:349-379 | The state moves back, and a thread that is ready again may preempt. |
| Rendezvous.TagRoundTrip | include/nerve/ipc_utils.h:30-43 | Port and key come back from their tag. |
| Rendezvous.LinkedKeeps | kernel/ipc.c:142-229 | A thread that parks is linked in the one list its reason names. |
| Rendezvous.UnlinkedKeeps | kernel/sync.c:43-52 | A thread that goes on is linked in none. |
| RendezvousSteps.AskingKeeps | kernel/ipc.c:142-229 | A caller that waits at a port keeps keys distinct, calls in order and everything linked. |
| RendezvousSteps.ServedKeeps | kernel/ipc.c:231-308 | Taking the first caller's message hands out calls in the order they were made. |
| RendezvousSteps.MetKeeps | kernel/ipc.c:142-229 | A call taken at once is as one that waited and was served. |
| RendezvousSteps.RepliedKeeps | kernel/ipc.c:316-363 | A reply reaches the caller whose key it carries, and gives the key back. |
| RendezvousSteps.AbandonedKeeps | kernel/ipc.c:422-429 | A caller that fails is the only one with its key and gives it back. |
| RendezvousSteps.KilledKeeps | kernel/thread.c:251-296 | A terminated thread waits for nothing, and everything else stays in order. |
| LostKeys.KilledLoses | kernel/thread.c:251-296 | Terminating a thread loses the key of its call exactly if the call was not received yet, or failed and was not gone on with; no other key is lost, and one that a server was given is not. |
| LostKeys.LostIsTaken | kernel/ipc.c:142-229 | A lost key counts as taken, so no call can have it. |
| LostKeys.LostReply | kernel/ipc.c:316-363 | No reply frees a lost key. |
| LostKeys.LostAbandon | kernel/ipc.c:190-229 | Nor does a caller that goes on without a reply. |
| Kernel.NotifiedKeeps | kernel/ipc.c:446-482 | A notification ends the wait for a flag or a message, or stays set until the thread looks. |
| Kernel.DestroyExact | kernel/thread.c:172-200 | Destroying a dormant thread keeps the invariant exactly when nobody waits at its port. |
| Kernel.Stranded | kernel/thread.c:172-200 | Otherwise whoever waits there is parked at a port that is gone. |
| Kernel.StrandedSender | kernel/thread.c:172-200 | Such a state: a server terminated with a sender waiting, and then destroyed. |
| Kernel.Ipcs.Open | kernel/ipc.c:92-116 | The running thread's port is open with empty lists, unless it was open. |
| Kernel.Ipcs.Close | kernel/ipc.c:118-140 | Everyone at the port is told that it is gone, and nobody else is disturbed. |
| Passing.PassMeeting | kernel/ipc.c:142-229 | A receiver that was waiting is handed the newest call, with a tag that names the caller and the key. |
| Passing.PassServed | kernel/ipc.c:231-308 | The caller taken from the line is handed out for the first time. |
| Passing.PassReplied | kernel/ipc.c:316-363 | A reply leaves the keys of the other calls handed out standing for them. |
| Kernel.CalledGoes | kernel/ipc.c:142-229 | A call or message goes to the receiver waiting longest, with the sender and the key in the tag, or behind those already in line; a caller waits for the reply to its key. |
| Kernel.Ipcs.Call | kernel/ipc.c:142-229 | The error cases in their order; otherwise the caller parks under a fresh key, served at once if a receiver waits. |
| Kernel.Ipcs.CallResume | kernel/ipc.c:190-229 | The caller goes on with the reply made to this very call, or fails and gives its key back. |
| Kernel.Ipcs.Receive | kernel/ipc.c:231-308 | A pending notification first; then the caller that has waited longest, or the receiver parks. |
| Kernel.Ipcs.Reply | kernel/ipc.c:316-363 | The caller with the key goes on with the message, and the key is free; a reply to nobody is refused. |
| Kernel.Ipcs.SendTo | kernel/ipc.c:365-420 | A waiting receiver takes the message at once, or the sender waits its turn. |
| Kernel.Ipcs.Send | kernel/ipc.c:310-314 | The key in the tag tells a reply from a message. |
| Kernel.Ipcs.Listen | kernel/ipc.c:431-444 | A pending notification is taken, or the thread parks for one. |
| Kernel.Ipcs.Notify | kernel/ipc.c:446-482 | A thread that waits for a flag or a message is woken, and otherwise every bit is in its flag afterwards; dormant and missing threads are refused. |
| Kernel.Ipcs.Terminate | kernel/thread.c:251-296 | Whatever the thread waited for, it waits no longer, and nobody else is disturbed. |
| Kernel.Ipcs.Destroy | kernel/thread.c:172-200 | The thread, its port and its flag are gone; everything stays in order exactly when nobody waited at the port. |
| Kernel.SafeRun | kernel/ipc.c:92-482 | What servers and callers rely on follows: among it, a receiver that a message woke was handed one that was sent to its port, its tag names the sender and the key, and the key stands for that call until it is answered. |
| Kernel.SoundRun | kernel/ready.c:61-140 | A thread is in the queue of its priority exactly when it is ready or running, and only `running` runs. |
| Kernel.Ipcs.Do | kernel/ipc.c:92-482 | Every service call keeps everything in order, what is lost stays lost, who comes back still has what was passed to it, and bits leave a flag only when its thread looks or is started. |
| Kernel.Ipcs.Run | kernel/ipc.c:92-482 | After any run of service calls, from boot on, both hold, and every key lost before it is still lost and taken. |
| PageTables.UserRange | drivers/i686/memory.c:232-289 | The test of the range in bytes is that all its pages are user pages. |
| PageTables.UnmappedStep | drivers/i686/memory.c:232-289 | One directory entry further: pages of the range are gone, other translations are as they were, and just the frames and emptied tables are free. |
| PageTables.Memory.Unmap | drivers/i686/memory.c:232-289 | No page of the range is present, every other translation is as it was, and exactly the frames of the range and the tables left empty are freed; no mapped page is free then exactly when no frame of the range was mapped elsewhere. |
| PageTables.Memory.Detach | drivers/i686/memory.c:291-346 | The same without freeing a data page, so that no mapped page is free. |
| PageTables.Memory.Attach | drivers/i686/memory.c:129-177 | Every page of the range maps the source's frame, other translations are as they were, and only frames for new tables are taken. It succeeds exactly if every source page is there, no destination page is, and the missing tables are free; when it fails, a first part of the range is done. |
| PageTables.Memory.Copy | drivers/i686/memory.c:72-127 | Every page of the range has a fresh frame of its own with the source's contents, and no other frame changes. It succeeds exactly if every source page is there, no destination page is, and there are frames for the missing tables and the pages; when it fails, a first part of the range is done. |
| PageTables.Memory.Map | drivers/i686/memory.c:179-230 | Pages that were missing get fresh cleared frames, present ones are kept. It succeeds exactly if there are frames for the missing tables and pages; when it fails, a first part of the range is done. |
| PageTables.AttachDetach | drivers/i686/memory.c:291-346 | Detaching what was attached where nothing was undoes it: translations, directory and free frames are as before, and no shared page was freed. |
| PageTables.UnmappedReady | drivers/i686/memory.c:232-289 | After unmapping, no mapped page is free exactly when no frame of the range was mapped elsewhere. |
| AddressSpaces.Bystander | drivers/i686/memory.c:72-346 | A space that shares no table with the one worked on still shares none, and its translations are as they were. |
| AddressSpaces.BystanderView | drivers/i686/memory.c:72-346 | Its pages hold what they held. |
| AddressSpaces.StaySeparate | drivers/i686/memory.c:72-346 | No two spaces come to share a table. |
| AddressSpaces.Spaces.Do | drivers/i686/memory.c:72-346 | Each call, failed or not, keeps the spaces apart and no mapped page free, and every other space sees the same pages with the same contents. |
| AddressSpaces.Spaces.Run | drivers/i686/memory.c:72-346 | Over any run of calls on any of the spaces, so it is, and a space that no call was made on sees what it saw at the start. |

## Left out

- Scheme.ApplyPrim: `-`, `*` and `/` do not test the tag of the first of several arguments, and with none read past the arguments; the model errs there, where the code computes with the bits of a pointer. `/` of one argument does not test it for 0, where the model errs.
- SchemeDerived.OrPreserved: goes one way only; a later operand may mention `v` and never be evaluated, so no condition on the text of the operands is exact.
- SchemeRelink.Reader.RewriteLet: takes every binding to be a list of two; the code throws part of the way through at one that is not.
- SchemeOperands.Collect: is about code that is protected or whose frame the collector looks at. That every pending call has a frame is proved of the machine (SchemeFrames.EveryCallHasItsFrame), whose cells are values and not the collector's addresses.
- Passing.PassMeeting: which calls were ever handed out is kept apart from each port's own list, since that list goes when its thread is destroyed and starts anew with the next of that number.
- Kernel.Ipcs.Run: leaves out destroying a thread at whose port somebody waits, where the invariant fails (Kernel.DestroyExact); servers reply with tags they were given and within the size they announced, the idle thread is always ready, and message copies succeed.
- PageTables.Memory.Attach: does not say which page made it fail; nor do Copy and Map. Of several reasons to fail it gives the one met first. Source and destination share no table, which every run of AddressSpaces keeps, and the caller of Map keeps the range below the supervisor's.
- AddressSpaces.Spaces.Run: unmaps only pages that are mapped nowhere else, since the code frees them (PageTables.UnmappedReady); spaces are neither made nor destroyed.
- Tfs.FileSystem.Write: a write that finds no block for a second level, or that runs past the largest file, loses the data block it had just taken, as the code does not give it back; the contract counts it (TfsSpace.Wasted).
- TfsDirectoryRun.Run: stops at an append that was cut off; making and freeing the inode of the entry is not part of it.
- Tfs.FileSystem.Shorten: only to sizes no larger than the file's.
- BlockCache.Cache.Invalidate: only of blocks that nobody has pinned.
- SchemeHeap.Heap.Unprotect: only of cells that are protected.
- RangeCoder.Coder.PutBuf: putting a byte never fails, and the run of pending 0xff bytes has no limit.
- ZeroRuns.Encode: the count of a run has no limit; ZeroRuns.Decode says nothing past the width of an int.
- Scheme: `define`, `set!`, `import`, lambdas with any number of arguments, flonums, strings, vectors, the tokenizer, printing, and the limit of the compiler's frame stack. Keywords are told apart before compiling, and integers have no limit.
- The rewriting of `define` with parameters, and of a list headed by a derived keyword that is itself a variable or is quoted.
- The cache as a hash of buckets: it is a map, and the three lists are sequences. The list called lru is used as the code uses it, with the block released last evicted first.
- TFS without the block cache under it, timestamps and permissions; an image in order, as the tool that makes file systems leaves it, is where runs begin. Names have at most 255 bytes and file numbers fit 32 bits; the bytes behind a name are arbitrary.
- The kernel's context switches, delays, mutexes (compiled out), creation of a thread that starts at once, and interrupt handling. A service call is one step; a blocking call parks in one step and goes on in another. Numbers for keys come from a set of free numbers.
- The supervisor's part of the page directory, and access rights other than writing.
- List, tree, hash, slab and sequence libraries: sequences, maps and sets stand for them.
- Command-line tools, shell, terminal, window, font and drawing code, drivers, and the message plumbing of the file server.
