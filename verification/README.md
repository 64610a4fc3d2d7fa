# Letin virtual machine: a verified model

Letin is a small virtual machine for functional languages, with a compiler that writes program images. This
project models the stateful core of the machine and of the compiler's back end in Dafny, and proves what the
code promises about it:

- **The mark-sweep collector.** `MarkSweep` is the collector with its intrusive headers: one link chains the heap,
  the other is at once the mark and the link of the mark stack. `ObjectGraph` says what "reachable" means and what
  a pass marks that leaves some objects unvisited. `GcHistory` runs allocations, mutations and collections in any
  order.
- **Stopping the world.** `StopTheWorld` is the protocol of signals, a flag and two semaphores as a step system in
  which any enabled step may come next. `LazyMutexes` is the second protocol of this kind, the accounting of lazy
  values with one semaphore.
- **Calls and errors.** `CallStack` has the operations on the registers and the flat stack of a thread,
  `ThreadStack` the class that performs them in place. `CallRuns` refines the flat stack to a stack of activations
  over every run, with native calls nested in it; `Unwinding` proves what a return and an error under a `try` give
  back, `StackTrace` what the walk over the frames records. `RegisteredRefs` is the circular list of references
  that native code registers.
- **The memo cache.** `HashTables` is the chained hash table in memory, `MemoCaches` the cache made of three such
  tables for every function, `Memoization` a machine that runs nested calls with the cache and gives the results of
  one without. `EvalStrategies` assigns strategies and cache slots.
- **The compiler.** `ParseTrees` is its input. `DefinitionTable` collects the definitions, `Labels` and `Instructions`
  turn lines into instruction words, `CodeGeneration` puts the functions behind each other, `ObjectGraphLayout` lays
  out the objects of variables, `SymbolTable` makes relocations and symbols. `Compiler` assembles the image from them,
  `ImageFormat` and `ImageWriter` are its bytes.
- **From the image to the machine.** `ImageReading` and `ImageLoader` read images, `ImageRoundTrip` relates what is
  written to what is read. `CompiledImages` proves when the loader accepts what the compiler writes,
  `CompiledReading` that it reads the source back. `Relocations`, `DataLoading` and `Linker` bring any number of
  programs into one machine; `LoadedPrograms` and `CompiledLinking` follow the names of the source to the functions
  and variables that they denote there. `Opcodes` and `Bytes` are the encodings underneath.

The code is followed where it and its intention differ. These differences are stated as lemmas:

- A thread's temporary object is marked without being looked into. A collection keeps exactly what the program can
  reach if and only if the elements of such objects are marked otherwise (`GcHistory.LosesNothingExactly`); on the heap
  before the collection this means, as long as no temporary object leads to another one, that everything they refer
  to is reached without them (`GcHistory.CollectionKeepsExactlyTheLive`). New objects and objects that their thread
  also holds as a root are no danger (`GcHistory.NewOrRootedTmpsAreKept`); a tuple that only the temporary reference
  holds loses its elements (`GcHistory.TupleLosesItsElement`).
- A collection between the two halves of an allocation leaves the new header marked
  (`GcHistory.CollectBetweenTheHalvesLeavesAMark`). The next collection takes that mark for a visit, frees an object
  that is still reachable through it, and only then clears it (`GcHistory.StaleMarkLosesALiveObject`). Histories are
  safe if collections do not fall into that gap.
- The loader rejects a function that starts at the end of the code, so that a program whose last function is empty is
  compiled and not accepted (`CompiledImages.AcceptedExactly`, `CompiledReading.EmptyFunctionIsRejected`). Which
  function is last is up to the order of a hash table.
- An error after the try registers are set but before the function is entered reads four slots that nobody wrote
  for it (`Unwinding.ErrorBeforeCallResumesExactly`, `Unwinding.StaleFrameResumesEarlierCall`).
- `retry` changes the arguments under which a result is memoized (`Memoization.MissIsStored`).
- Unlocking a lazy value that a thread does not hold puts a unit too many into the semaphore
  (`LazyMutexes.ReleaseBalancesExactly`).
- A signed 32-bit place relocated to an index of 2^31 or more cannot be relocated again
  (`Relocations.MovedTwice`).
- A `lettuple` of 258 variables, which the compiler accepts, is read as one of 2 (`Instructions.InstructionRoundTripsExactly`,
  `Opcodes.MostLocalVarsWrap`).
- The names of native functions in the data are counted with the names of functions, so that the size computed
  beforehand can be wrong (`SymbolTable.ComputedSizeIsRightExactly`, `SymbolTable.NativeInDataIsNotCounted`).

Further places where the code is followed as it is: `restore_regs` sets `sec` to `abp2 + ac2`, whatever it was;
`enter_to_fun` stores the instruction pointer before the current one; `leave_from_fun` sets `sec` to `abp2`;
`pop_try_regs` fails below four slots and takes six; the interruptible-function flag has no initial value in the
code (the model starts with it cleared); the factory of the memo cache swaps the number of functions and the number
of buckets, so both are arbitrary numbers here; the comparison of pairs compares the first component twice and the
comparison of reference arrays and tuples is negated, so the equality of keys is a parameter. The source passes no
flag for native functions when it looks up an element; the model follows it.

Number types are unbounded where the code has checked that they are, and wrap around explicitly where it relies on
that: the packed function register, the stored instruction pointer, the pair of try registers, relocated indexes
and jump distances.

`dafny verify dfyconfig.toml` checks everything.

## Model

| member | source | states |
|---|---|---|
| MarkSweep.MarkSweepCollector.Collect | vm/gc/mark_sweep_gc.cpp:42-50 | One collection: the live list keeps exactly the objects the pass marks, in their old order; all others are freed and finalized once; the marks of the list are cleared and the mark stack is empty |
| MarkSweep.MarkSweepCollector.Mark | vm/gc/mark_sweep_gc.cpp:83-93 | Every thread context in turn, then the machine contexts: the marks after the pass are exactly those of `PassMarks`, on any cyclic graph |
| MarkSweep.MarkSweepCollector.MarkContext | vm/gc/mark_sweep_gc.cpp:85-89 | The roots of one context are marked with everything they lead to; its temporary object is marked and joins the objects never looked into, unless the roots led there |
| MarkSweep.MarkSweepCollector.MarkFromObject | vm/gc/mark_sweep_gc.cpp:112-116 | One root: it is marked, nothing outside what the root reaches is, and every marked object that is looked into has only marked children |
| MarkSweep.MarkSweepCollector.MarkLoop | vm/gc/mark_sweep_gc.cpp:117-123 | The loop ends with an empty stack, because the unmarked objects and then the depth of the stack decrease; until then the objects on the stack are the only ones that may have unmarked children |
| MarkSweep.MarkSweepCollector.PushChildren | vm/gc/mark_sweep_gc.cpp:119-122 | Exactly the unmarked children of the popped object are marked and pushed, each once |
| MarkSweep.MarkSweepCollector.MarkAndPush | vm/gc/mark_sweep_gc.hpp:53-54 | An unmarked header becomes the top of a stack without repetition that ends at the sentinel |
| MarkSweep.MarkSweepCollector.Pop | vm/gc/mark_sweep_gc.hpp:56-61 | The top header leaves the stack and keeps its mark |
| MarkSweep.ChildrenAreThoseReferredTo | vm/vm.cpp:2109-2170 | The traversal visits exactly the objects that an object refers to: the references of an array, the elements of a tuple and the value and arguments of a lazy value that are references, all entries in the chains of the buckets of a hash table, the key and the value of an entry; nil never |
| MarkSweep.MarkSweepCollector.PushEntries | vm/vm.cpp:2137-2150 | Bucket after bucket, the entries of a hash table are marked and pushed like other children |
| MarkSweep.MarkSweepCollector.PushChain | vm/vm.cpp:2141-2147 | The walk along one bucket visits the entries of its chain in order and ends |
| MarkSweep.MarkSweepCollector.MarkRound | vm/gc/mark_sweep_gc.cpp:117-123 | One round pops an object and pushes its children; what is still to be looked into stays on the stack |
| MarkSweep.MarkedExactly | vm/gc/mark_sweep_gc.cpp:112-125 | Marks that hold the roots, are closed under the children looked at and stay within what is reachable are exactly what is reachable |
| MarkSweep.MarkSweepCollector.Sweep | vm/gc/mark_sweep_gc.cpp:95-110 | Unlinking through a pointer to the link filters the list in place by the marks, in order, and frees the rest |
| MarkSweep.MarkSweepCollector.Publish | vm/gc/mark_sweep_gc.hpp:43-48 | A reserved header becomes the first of the list and keeps the mark it may have |
| MarkSweep.MarkSweepCollector.PublishImmortal | vm/gc/mark_sweep_gc.cpp:69-81 | The same for the list that is never swept |
| ObjectGraph.ReachSetLeast | vm/gc/mark_sweep_gc.cpp:112-125 | What is reachable is the least set that holds the roots and is closed under the edges |
| ObjectGraph.PassMarksOnlyReachable | vm/gc/mark_sweep_gc.cpp:83-93 | A pass marks nothing but what was marked before and what is reachable |
| ObjectGraph.PassLosesNothingExactly | vm/gc/mark_sweep_gc.cpp:87-88 | In terms of the marks: everything reachable is marked if and only if no reachable object that was never looked into has an unmarked child |
| ObjectGraph.SkippedAreLate | vm/gc/mark_sweep_gc.cpp:83-93 | What a pass never looks into is, at most, the temporary objects that the roots of their own and earlier contexts do not lead to |
| ObjectGraph.LateAreSkipped | vm/gc/mark_sweep_gc.cpp:83-93 | If no temporary object leads to another one, these are not looked into |
| ObjectGraph.TmpsMarked | vm/gc/mark_sweep_gc.cpp:87-88 | Every temporary object is marked at the end of the pass |
| ObjectGraph.KeptDroppedSplit | vm/gc/mark_sweep_gc.cpp:95-110 | Survivors and freed objects partition the list, each once |
| GcHistory.LosesNothingExactly | vm/gc/mark_sweep_gc.cpp:42-50 | On a heap without stale marks a collection keeps exactly the mortal objects the program can reach, and frees none of them, if and only if the elements of temporary objects that were not looked into are marked or immortal |
| GcHistory.KeptTmpsAreSafe | vm/gc/mark_sweep_gc.cpp:83-93 | A condition on the heap before the collection is enough for that: whatever a temporary object refers to, if the roots of its own and earlier contexts do not lead to it, is reached from roots without such objects or is a temporary object itself |
| GcHistory.CollectionKeepsExactlyTheLive | vm/gc/mark_sweep_gc.cpp:42-50 | If no temporary object leads to another one, that condition is exact: the collection keeps exactly what the program can reach if and only if it holds |
| GcHistory.NewOrRootedTmpsAreKept | vm/vm/interp_vm.cpp:918-923 | It holds while temporary objects have no elements yet or are roots of their own thread |
| GcHistory.TupleLosesItsElement | vm/vm/interp_vm.cpp:918-923 | A history without collections at whose end only the temporary reference holds a tuple: the next collection frees its element, which the program can reach |
| GcHistory.NoLiveObjectIsFreed | vm/gc/mark_sweep_gc.cpp:42-67 | In every history of allocations, mutations and collections, each with the condition above on its heap and with nothing reachable still being allocated, no reachable object is ever freed and every header is clear before each collection |
| GcHistory.CleanAfterCollectExactly | vm/gc/mark_sweep_gc.cpp:52-67 | A collection leaves no stale mark if and only if it marks no header that is still being allocated |
| GcHistory.CollectBetweenTheHalvesLeavesAMark | vm/gc/mark_sweep_gc.cpp:60-65 | A history in which a collection between the two halves of an allocation leaves a mark |
| GcHistory.RacedHistoryEnds | vm/gc/mark_sweep_gc.cpp:60-65 | Such a history goes on with stores and two more allocations to a heap in which the marked object is all that holds another one |
| GcHistory.StaleMarkLosesALiveObject | vm/gc/mark_sweep_gc.cpp:112-125 | At the end of that history, from the empty heap, a collection frees an object that is reachable |
| StopTheWorld.WorldIsStopped | vm/thread_stop_cont.cpp:63-126 | In every interleaving, while the threads are locked every registered live thread is suspended in the handler or inside an interruptible region |
| StopTheWorld.NobodyGetsOut | vm/vm.cpp:469-480 | While the threads are locked no step of a thread ends its suspension or lets it leave its interruptible region |
| StopTheWorld.SemaphoresAreConserved | vm/thread_stop_cont.cpp:63-137 | After any number of cycles both semaphores are zero and each has been posted once per cycle for every thread that was stopped |
| StopTheWorld.AllStopsCollected | vm/thread_stop_cont.cpp:115-126 | When all stops are waited for, every target has posted and the semaphore is empty |
| StopTheWorld.AllContsCollected | vm/thread_stop_cont.cpp:128-137 | The same for continuing |
| StopTheWorld.SomeStepIsEnabled | vm/thread_stop_cont.cpp:63-137 | While a cycle is under way some step of it is enabled, also with stale or merged signals: no wake-up is lost |
| StopTheWorld.CyclesAreBounded | vm/thread_stop_cont.cpp:63-137 | Every step of a cycle leaves strictly less to do and no other step adds to it |
| StopTheWorld.StopIsReached | vm/thread_stop_cont.cpp:115-126 | From every state of a cycle that has begun, some run stops the world |
| StopTheWorld.CycleEnds | vm/thread_stop_cont.cpp:128-137 | From every state, some run ends the cycle |
| StopTheWorld.StepKeepsInv | vm/impl_gc_base.cpp:31-49 | Every step of a thread, a handler or the collector keeps the invariant of the protocol |
| StopTheWorld.RunKeepsInv | vm/impl_gc_base.cpp:31-49 | So does every run |
| CallStack.PackRoundTrip | vm/vm.cpp:1269-1269 | The function register comes back from the packed word if and only if its signed value fits 56 bits; both flags always do |
| CallStack.PackFits | vm/vm.cpp:1306-1309 | Function numbers below 2^55 and the register of a thread without a function come back |
| CallRuns.EnterWrites | vm/vm.cpp:1264-1289 | A call writes a frame that holds the registers of its caller, and no slot below it |
| CallRuns.LeaveReads | vm/vm.cpp:1291-1317 | A return gives the registers stored in the frame |
| CallRuns.CallKeeps | vm/vm.cpp:1264-1289 | After a call the stack encodes the callers and one more, and everything below is as before |
| CallRuns.ReturnKeeps | vm/vm.cpp:1291-1317 | After a return the stack encodes the remaining callers |
| CallRuns.ErrorReturns | vm/vm.cpp:1403-1416 | An error leaves the tried function exactly as if that function were running and returned |
| CallRuns.StepKeeps | vm/vm.cpp:1264-1416 | Every operation of the thread keeps the encoding of all callers and what lies below them |
| CallRuns.RunKeeps | vm/vm.cpp:1264-1585 | So does every run, with native calls nested to any depth |
| CallRuns.PerformKeeps | vm/vm.cpp:1319-1336 | So does a native call with all it runs |
| CallRuns.RestoreGivesBack | vm/vm.cpp:1528-1585 | From the saved registers and the seven slots every register comes back, but for the result, a scratch register and `sec` |
| CallRuns.NativeRoundTrip | vm/vm.cpp:1472-1585 | After any run of a native function, with errors in it, no slot below its base has changed, `restore_regs` succeeds and every saved register is back |
| Unwinding.ReturnResumes | vm/vm.cpp:1291-1317 | Whatever a callee did, its return gives the caller its registers, with the instruction pointer one less and `sec` at `abp2` |
| Unwinding.ErrorResumes | vm/vm.cpp:1403-1416 | An error at any depth inside a tried function resumes the caller exactly as a return of that function would |
| Unwinding.PopTryReads | vm/vm.hpp:418-452 | The try registers come back from the six slots that keep them |
| Unwinding.TryIsRestored | vm/vm.hpp:418-452 | After the tried function the registers of the outer try and the stack of the caller are as before |
| Unwinding.TryExpressionRestores | vm/vm/interp_vm.cpp:2824-2865 | The whole of a failing try, from pushing the outer try registers to popping them, gives the caller everything back and the error as its result |
| Unwinding.ErrorBeforeCallResumesExactly | vm/vm/interp_vm.cpp:2847-2848 | An error between setting the try registers and entering resumes the caller if and only if the slots above its arguments happen to hold the frame of the call |
| Unwinding.ErrorBeforeCallIsNotCaught | vm/vm.cpp:1403-1416 | On slots without a frame such an error is not caught |
| Unwinding.StaleFrameResumesEarlierCall | vm/vm.cpp:1403-1416 | On slots of an earlier call such an error goes back to the instruction of that call |
| StackTrace.TraceDownTo | vm/vm.cpp:1351-1386 | The walk down to a tried function yields the function and instruction of every activation from the running one to the tried one |
| StackTrace.TraceDownToBase | vm/vm.cpp:1351-1386 | The walk down to the base yields every activation |
| ThreadStack.ThreadContext.constructor | vm/vm.cpp:1220-1262 | A new thread has the empty stack of activations |
| ThreadStack.ThreadContext.EnterToFun | vm/vm.cpp:1264-1289 | The call in place has the effect of `Enter`, and none when it fails |
| ThreadStack.ThreadContext.LeaveFromFun | vm/vm.cpp:1291-1317 | The return in place has the effect of `Leave`, and none when it fails |
| ThreadStack.ThreadContext.TryLockAndUnlockLazyValues | vm/vm.cpp:1338-1349 | Exactly the locked lazy values recorded above a height are released, topmost first |
| ThreadStack.ThreadContext.AddStackTraceElems | vm/vm.cpp:1351-1386 | The walk ends, since the height of the frame decreases, and appends the trace of the abstract callers |
| ThreadStack.ThreadContext.SetErrorWithoutTry | vm/vm.cpp:1388-1401 | Registers, released lazy values and trace after an error that is not caught |
| ThreadStack.ThreadContext.SetError | vm/vm.cpp:1403-1416 | The same of every error, under a try or not, with or without a frame to leave |
| ThreadStack.ThreadContext.SaveRegsAndSetRegs | vm/vm.cpp:1472-1526 | The effect of `Save`, and none but the copy of the registers when the stack is too short |
| ThreadStack.ThreadContext.RestoreRegs | vm/vm.cpp:1528-1585 | The effect of `Restore`; it reports whether the slots hold what was saved |
| ThreadStack.ThreadContext.PushLocalVar | vm/vm.hpp:291-303 | The effect on the memory, and none when the stack is full |
| ThreadStack.ThreadContext.PushArg | vm/vm.hpp:305-315 | The same for an argument |
| ThreadStack.ThreadContext.PushTryRegs | vm/vm.hpp:418-427 | Six slots with the try registers; when the stack gets full, how many of them were written |
| ThreadStack.ThreadContext.RestoreAbp2AndAc2 | vm/vm.hpp:361-367 | The hidden arguments are the arguments again |
| ThreadStack.ThreadContext.PopTryRegs | vm/vm.hpp:429-452 | The effect of reading them back, and none on slots of other types |
| HashTables.HashTable.constructor | vm/hash_table.hpp:108-108 | An empty map without buckets |
| HashTables.HashTable.FindEntry | vm/hash_table.hpp:145-155 | The entry found is the one of the key's class, and there is none exactly if the map has none |
| HashTables.HashTable.Get | vm/hash_table.hpp:182-191 | The value of the finite map, or nothing |
| HashTables.HashTable.Add | vm/hash_table.hpp:193-233 | The map with the key set to the value; without memory for the entry, its key or its value the table stays as it is, a nil table ignores it |
| HashTables.HashTable.Del | vm/hash_table.hpp:235-257 | The map without the key; the result says whether it was there |
| HashTables.HashTable.SetBucketCount | vm/hash_table.hpp:157-174 | An empty map with new buckets, or nil for none; without memory nothing changes |
| HashTables.HashTable.SetBucketCountForNilRef | vm/hash_table.hpp:279-284 | The same for a table without buckets; one that has some stays as it is |
| HashTables.HashTable.Size | vm/hash_table.hpp:286-290 | The number of keys |
| HashTables.HashTable.Append | vm/hash_table.hpp:215-226 | Linking behind the last entry keeps every bucket a doubly linked list |
| HashTables.HashTable.Unlink | vm/hash_table.hpp:242-253 | Taking an entry out does the same |
| HashTables.InsertedKeeps | vm/hash_table.hpp:199-229 | A new entry in the bucket of its hash keeps one entry for each key and every entry in its bucket |
| HashTables.ReplacedKeeps | vm/hash_table.hpp:230-231 | So does a new value |
| HashTables.RemovedKeeps | vm/hash_table.hpp:235-257 | So does taking one out |
| HashTables.FoundInBucket | vm/hash_table.hpp:147-148 | The entry of a key lies in the bucket of every equal key, if the hash respects equality |
| HashTables.AppendedLinked | vm/hash_table.hpp:219-225 | The links after appending are those of all chains, the longer one among them |
| HashTables.UnlinkedLinked | vm/hash_table.hpp:246-253 | The links after taking out are those of all chains without the entry, wherever it was |
| MemoCaches.MemoizationCache.FunResult | vm/cache/ht_memo_cache.cpp:25-53 | What the tables of the function and type hold for memoizable arguments |
| MemoCaches.MemoizationCache.AddFunResult | vm/cache/ht_memo_cache.cpp:55-74 | The maps that all hash tables of the cache hold after storing, and success, for every failure of memory |
| MemoCaches.MemoizationCache.StoreApart | vm/cache/ht_memo_cache.cpp:55-74 | Storing in the hash table of one function and type changes no other one in memory |
| MemoCaches.MemoizationCache.constructor | vm/cache/ht_memo_cache.hpp:34-35 | Nothing is found in a new cache |
| MemoCaches.StoreThenLookup | vm/cache/ht_memo_cache.cpp:25-74 | Storing changes what is found for its function, type and key only: results of different functions or types never mix |
| MemoCaches.StoredIsFound | vm/cache/ht_memo_cache.cpp:55-74 | A stored result is found if and only if its function has a slot and a table or buckets for one |
| Memoization.CacheIsInvisible | vm/strategy/memo_eval_strategy.cpp:80-130 | A run with any sound cache and any failing allocations that ends without an error gives exactly the result of the function without a cache, and leaves the cache sound |
| Memoization.MemoizedCallReturns | vm/strategy/memo_eval_strategy.cpp:80-130 | A function that returns without a cache returns the same with it, while memory lasts |
| Memoization.StepKeeps | vm/strategy/memo_eval_strategy.cpp:80-130 | Every step keeps the cache sound and what is left in all frames equivalent to their calls, because each frame gives its caller the flag back; functions without a slot keep whatever flag there is |
| Memoization.StoreKeepsSound | vm/strategy/memo_eval_strategy.cpp:102-130 | Storing the value of a function under its slot keeps everything in the cache true |
| Memoization.StrategySlotsApart | vm/strategy/fun_eval_strategy.cpp:79-90 | The slots that the strategy assigns are not shared, as the cache needs |
| Memoization.HitKeepsSlots | vm/strategy/memo_eval_strategy.cpp:92-106 | A hit goes through the test of the flag without storing: the cache stays as it is whatever memory there is, and the caller goes on with the result found |
| Memoization.MissIsStored | vm/strategy/memo_eval_strategy.cpp:102-130 | After a miss the result is found under the arguments the callee ended with, whatever hits lie in between, if and only if there is a place for it |
| EvalStrategies.FunctionEvaluationStrategy.SetFunInfosAndFunCount | vm/strategy/fun_eval_strategy.cpp:75-94 | Every function gets its strategy and indexes, the cache as many slots as functions are memoized |
| EvalStrategies.CodeIsTableIndex | vm/vm.hpp:711-712 | Every strategy code is one of the four entries of the table |
| EvalStrategies.SlotsAreDistinct | vm/strategy/fun_eval_strategy.cpp:79-90 | Every memoized function has a slot of the cache and no two have the same |
| EvalStrategies.SlotIsUsed | vm/strategy/fun_eval_strategy.cpp:79-90 | Every slot belongs to a memoized function |
| LazyMutexes.SemaphoreNeverWaits | vm/vm.cpp:164-190 | In every interleaving the semaphore and the threads holding or locking a lazy value make up the live threads, so that taking a unit never waits |
| LazyMutexes.StepKeeps | vm/vm.cpp:164-190 | Every step keeps this balance and the number of mutexes each thread counts |
| LazyMutexes.RunKeeps | vm/impl_vm_base.cpp:331-337 | So does every run of starting, ending, locking and unlocking threads |
| LazyMutexes.UnwindReleasesExactly | vm/vm.cpp:1338-1349 | An unwinding thread releases exactly the lazy values recorded in the region, and the balance holds |
| LazyMutexes.ReleaseBalancesExactly | vm/vm.cpp:185-190 | Releasing keeps the balance if and only if the thread counted a mutex |
| LazyMutexes.UnwindOfForeignLockBreaksBalance | vm/vm.cpp:1338-1349 | A thread without locks that unlocks another's breaks it |
| RegisteredRefs.Registry.RegisterRef | vm/vm.cpp:393-404 | A reference that is on no list is appended to the circular list; one that is on it changes nothing |
| RegisteredRefs.Registry.Destroy | vm/vm.cpp:380-391 | A reference is taken out of the circular list, wherever it was |
| RegisteredRefs.Registry.Walk | vm/vm.cpp:1459-1465 | The walk ends and visits every reference on the list once, in order |
| RegisteredRefs.Relinked | vm/vm.cpp:388-389 | Two neighbours that point to each other make a circle of the rest |
| Opcodes.FieldsRoundTrip | include/letin/opcode.hpp:178-201 | Instruction, operation and argument types come back from the packed word |
| Opcodes.LocalVarCountRoundTripsExactly | include/letin/opcode.hpp:178-206 | The number of local variables comes back if and only if it is 2 to 257 |
| Opcodes.MostLocalVarsWrap | comp/impl_comp.cpp:796-811 | The greatest number the compiler accepts comes back as 2 |
| Bytes.RoundTrip32 | vm/impl_loader.cpp:41-48 | Four bytes in network order and back |
| Bytes.RoundTrip64 | vm/impl_loader.cpp:81-81 | Eight bytes in network order and back |
| Bytes.OrTestIsWrapTest | vm/impl_loader.cpp:55-66 | The test of a sum against the bitwise or fires if and only if the sum wraps around, for 32 and for 64 bits |
| DefinitionTable.CollectDefinitions | comp/impl_comp.cpp:1020-1062 | Functions and variables with their indexes, public symbols, function infos and the entry; it fails exactly on a function, a variable or an entry that is there twice |
| Labels.NumberLabels | comp/impl_comp.cpp:1114-1125 | Every label gets the number of the next instruction; it fails exactly on a label defined twice |
| Labels.JumpLands | comp/impl_comp.cpp:853-853 | The distance added to the next instruction is the label's, modulo 2^32 |
| Labels.DistanceLeads | comp/impl_comp.cpp:591-600 | So the distance to a label leads to the instruction behind a line with that label |
| Instructions.InstructionRoundTripsExactly | comp/impl_comp.cpp:811-813 | The words of an instruction are read as its code, operation and operands, and as its number of local variables if and only if that is 2 to 257 |
| Instructions.LoweredJumps | comp/impl_comp.cpp:833-897 | Only jumps have a label, it is a known one, and its distance is stored |
| CodeGeneration.GenerateInstrs | comp/impl_comp.cpp:1126-1133 | Every instruction of the lines lies at its number, with the references of its arguments in order; it fails exactly if some line has no code |
| CodeGeneration.GenerateFunctions | comp/impl_comp.cpp:1106-1139 | The functions lie behind each other in the order of the table, each with its address, its arguments and its length at its index; it fails exactly if some function does |
| ObjectGraphLayout.AddObjects | comp/impl_comp.cpp:309-350 | The objects of a tree in order, or a failure exactly if an object has a wrong type or an element of a kind that its type does not hold |
| ObjectGraphLayout.ListedRefersBack | comp/impl_comp.cpp:334-346 | In the list every object comes after the ones it refers to |
| ObjectGraphLayout.LayOut | comp/impl_comp.cpp:1141-1245 | Every object lies at the sum of the aligned sizes before it and holds its values in their width and the addresses of the objects it refers to; it fails exactly on a number out of range or a name that is not known |
| ObjectGraphLayout.LaidOutRepresents | comp/impl_comp.cpp:1141-1245 | At the address of every object lies its whole tree |
| Compiler.GenerateVars | comp/impl_comp.cpp:1247-1255 | Every variable at its index, with its bits or the address of its object; it fails exactly on a name that is not known |
| Compiler.GenerateEntry | comp/impl_comp.cpp:1078-1087 | The flags and the index of the entry; it fails exactly if that is no function of the program |
| Compiler.GenerateProg | comp/impl_comp.cpp:1011-1309 | The image of a source: the parts above in one; it fails exactly for a source that is not `Compilable` |
| SymbolTable.AddRelocs | comp/impl_comp.cpp:480-529 | Every reference has a relocation of its type and address; for a name that is not defined here it names the symbol of its kind and name, and every such name has one symbol |
| SymbolTable.SymbolsSizeByNames | comp/impl_comp.cpp:469-474 | Symbols without repetition have the size of their names, in whatever order these are counted |
| SymbolTable.ComputedSizeIsRightExactly | comp/impl_comp.cpp:417-474 | The size computed beforehand is right if and only if the native functions referred to in data only take as much as those of them that are counted as functions |
| SymbolTable.ComputedSizeWithoutNativesInData | comp/impl_comp.cpp:417-474 | Without native functions in the data it is right |
| SymbolTable.NativeInDataIsNotCounted | comp/impl_comp.cpp:455-468 | A program whose only symbol is not counted |
| ImageFormat.ImageFillsSize | comp/impl_comp.cpp:377-478 | All sections, aligned and padded, fill exactly the sum of their sizes |
| ImageWriter.GenerateImage | comp/impl_comp.cpp:1071-1305 | The buffer of the computed size, filled section by section in place, is the image |
| CompiledImages.AddressesAreKept | comp/impl_comp.cpp:393-396 | The data section has the size computed beforehand, and the loader finds its objects where they were laid out |
| CompiledImages.FunctionsOkExactly | vm/impl_loader.cpp:59-67 | The functions of a compiled image pass the loader's test if and only if the one that comes last has an instruction |
| CompiledImages.SymbolsAreOk | vm/impl_loader.cpp:208-264 | The relocations and symbols of a compiled image pass the loader's tests |
| CompiledImages.CompiledIsValid | comp/impl_comp.cpp:1011-1309 | A compiled image whose last function has code passes all of them |
| CompiledImages.AcceptedExactly | vm/impl_loader.cpp:32-297 | The loader accepts a compiled image if and only if there are no functions or the one that comes last has an instruction |
| CompiledImages.NonEmptyIsAccepted | vm/impl_loader.cpp:32-297 | So it accepts every one without empty functions, in whatever order they come |
| CompiledReading.CompiledIsReadBackExactly | vm/impl_loader.cpp:32-297 | What is accepted is the whole source: every function with its arguments and, at its address, the instruction of every line, with jumps leading to their labels; every variable with its bits or its tree of objects; a relocation of its type and place for every reference and the symbol that it names; entry, flags and function infos |
| CompiledReading.EmptyFunctionIsRejected | vm/impl_loader.cpp:62-66 | A library of one empty function is compiled, and its image is rejected |
| CompiledReading.ImageFillsProgramSizeExactly | comp/impl_comp.cpp:377-478 | The image fills the size computed from the source if and only if the program is not relocatable or the size of its symbols is right, as it is without native functions in the data |
| CompiledReading.Compile | comp/impl_comp.cpp:1071-1309 | The bytes of the image of a source in memory, or nothing exactly for a source that is not `Compilable` |
| ImageWriter.WriteSection | comp/impl_comp.cpp:1263-1274 | A section of records and its clear padding, behind what was written before |
| ImageLoader.Load | vm/impl_loader.cpp:32-297 | The pass with a cursor accepts and reads exactly what `ReadImage` says of the bytes |
| ImageLoader.LoadFuns | vm/impl_loader.cpp:59-67 | The functions, or a rejection exactly if one starts or ends outside the code |
| ImageLoader.LoadVars | vm/impl_loader.cpp:78-86 | The variables and the addresses they refer to, or a rejection exactly if one has an unknown type |
| ImageLoader.LoadObjects | vm/impl_loader.cpp:111-190 | The objects of the data section; what is left are the addresses of no object |
| ImageLoader.LoadRelocs | vm/impl_loader.cpp:208-228 | The relocations and the symbols they name, or a rejection exactly if one has an unknown type |
| ImageLoader.LoadSymbols | vm/impl_loader.cpp:230-264 | The symbols; what is left are the named ones that do not exist |
| ImageLoader.LoadInfos | vm/impl_loader.cpp:274-295 | The function infos, or a rejection exactly if one is of no function |
| ImageRoundTrip.ImageIsReadBack | vm/impl_loader.cpp:32-297 | An image that passes the loader's tests is accepted, and its functions, variables, instructions, objects, relocations, symbols and function infos are read back |
| ImageRoundTrip.BadFunctionIsRejected | vm/impl_loader.cpp:59-67 | One with a function outside its code is rejected, whatever else is in it |
| ImageRoundTrip.ObjectsBack | vm/impl_loader.cpp:111-189 | Objects written one behind the other are read back with their addresses |
| ImageRoundTrip.SymbolsBack | vm/impl_loader.cpp:232-264 | Symbols are read back, the last one without its padding |
| ImageRoundTrip.AcceptedIsWellFormed | vm/impl_loader.cpp:59-296 | Whatever is accepted: functions lie in the code, objects tile the data section, reference variables name objects modulo 2^32, symbolic relocations name symbols, function infos name functions |
| ImageRoundTrip.AcceptedSections | vm/impl_loader.cpp:50-110 | Whatever is accepted: all its sections, the relocations, symbols and function infos among them, lie one behind the other, at multiples of eight, inside the buffer, and hold what is read |
| ImageRoundTrip.ReadObjectsTile | vm/impl_loader.cpp:111-189 | The objects read tile the data section without overlap |
| Relocations.LoadedProgram.Relocate | vm/vm.cpp:1015-1131 | The relocations are applied in order up to the first that fails; entry and offsets change only if none does |
| Relocations.RelocatedAt | vm/vm.cpp:1015-1131 | With distinct places, each holds afterwards what its relocation says of its content before all of them |
| Relocations.UntouchedStays | vm/vm.cpp:1015-1131 | A place of no relocation keeps its content |
| Relocations.MovedTwice | vm/vm.cpp:1133-1150 | Moving an index again gives the direct move, except from a signed 32-bit place that holds 2^31 or more |
| Relocations.RelocationComposes | vm/vm.cpp:1015-1150 | Relocating to one pair of offsets and then to another is relocating to the other, whenever all of it succeeds |
| Relocations.Below | vm/vm.cpp:1164-1170 | The data object of an address is the last one that starts at or before it |
| DataLoading.Fill | vm/impl_vm_base.cpp:213-277 | An object gets the contents of its data object, or fails exactly if an element has an unknown type or address |
| DataLoading.Allocate | vm/impl_vm_base.cpp:200-209 | New objects for all data objects, as long as there is memory |
| DataLoading.LoadData | vm/impl_vm_base.cpp:200-278 | All of them with their contents; success exactly if there is memory and every data object is well typed |
| DataLoading.LoadedInjective | vm/impl_vm_base.cpp:200-209 | Different data objects become different objects |
| DataLoading.LoadedIsomorphic | vm/impl_vm_base.cpp:200-278 | The new heap is isomorphic to the data section |
| Linker.CollectSymbols | vm/impl_vm_base.cpp:75-114 | Every defined name has the shifted index of its one definition; it fails exactly if a definition is out of range or repeated |
| Linker.CheckSymbols | vm/impl_vm_base.cpp:116-149 | Success exactly if every used name is defined |
| Linker.ProvidedExactly | vm/impl_vm_base.cpp:116-149 | A name is known if and only if some program defines it |
| Linker.RelocatePrograms | vm/impl_vm_base.cpp:151-165 | Every program is relocated to its place among all; success exactly if all are |
| Linker.VirtualMachine.LoadProgram | vm/impl_vm_base.cpp:192-317 | Functions, variables, data, entry and function infos of one program are where they belong and nothing else changes; success exactly if there is memory, all references are good and no other program has an entry |
| Linker.VirtualMachine.LoadPrograms | vm/impl_vm_base.cpp:168-182 | The same of all programs |
| Linker.VirtualMachine.Load | vm/impl_vm_base.cpp:44-182 | Several programs linked and loaded; it fails exactly for one of the reasons that `Fails` lists |
| Linker.LocalFunctionKept | vm/impl_vm_base.cpp:44-182 | A local reference to a function denotes the same function as before, at its shifted index |
| Linker.LocalVariableKept | vm/impl_vm_base.cpp:44-182 | The same for variables |
| Linker.SymbolResolved | vm/impl_vm_base.cpp:44-182 | A symbolic reference denotes the one definition of its name |
| Linker.DefinedOnce | vm/impl_vm_base.cpp:75-114 | A collected name has one definition in all programs |
| Linker.DataKept | vm/impl_vm_base.cpp:44-182 | After linking, the objects of every program on the common heap are isomorphic to its data: references correspond, and numbers are equal unless a relocation is about them |
| LoadedPrograms.AcceptedAddresses | vm/impl_loader.cpp:103-190 | Of every accepted image the addresses are those of its objects in ascending order, as the machine expects |
| CompiledLinking.CodeHolds | comp/impl_comp.cpp:651-726 | Every reference in the code is about another operand, which holds the index of its name |
| CompiledLinking.CompiledRelocationsLand | comp/impl_comp.cpp:480-529 | The relocations of a compiled program, as they are loaded, each have a place of their own that holds the index of the name in the source, and name a symbol of that name exactly if it is not defined there |
| CompiledLinking.NameDenotes | vm/impl_vm_base.cpp:44-182 | From the source to the machine: after linking, every name of a function or a variable denotes that of its program, or else the one definition of the name in all programs |
| Linker.EntryKept | vm/vm.cpp:1015-1131 | The entry denotes the function it denoted in the only program that is not a library |

## Left out

- The interpreter loop, the grammar, the lexer and the memo-lazy strategy: calls are what `CallRuns` and
  `Memoization` need of them, a function is any program of calls and retries.
- Which registers and stack slots are roots: the collector takes any list of roots for each context.
- MarkSweep.MarkSweepCollector.Collect: the calls to the allocator and to the finalizer are the two histories `freed` and `finalized`.
- The destructor of the collector, the interval thread, fork handlers, Windows branches and memory fences: platform
  behaviour; steps are sequentially consistent.
- StopTheWorld.WorldIsStopped: one collector owns the signals; several collectors that share the handler's variable are not modelled.
- StopTheWorld.StepKeepsInv: a registered thread dies only while no cycle is under way, since a thread takes itself off the
  collector under its lock before it ends (vm/impl_vm_base.cpp:331-340); a thread that is not registered dies at any time.
- LazyMutexes.StepKeeps: `Semaphore::op` is one guarded step, without its condition variable.
- CallRuns.RunKeeps: a run contains only native calls that return; on an exception `invoke_native_fun` does not restore
  registers. An operation that fails ends the run.
- CallRuns.StepKeeps: register numbers and stack sizes below 2^32 are taken as unbounded; the expression stack has a height but no
  contents.
- Unwinding.ErrorResumes: the tried function must leave the try registers of its caller in place at the point of the error.
- ThreadStack.ThreadContext.PopTryRegs: 4 or 5 slots, with which the code passes its test and reads below the stack.
- Structural equality and hash of argument lists: parameters, since the comparison of arrays of references and tuples does
  not compute it.
- MemoCaches.MemoizationCache.AddFunResult: the forcing of lazy arguments and results is left out.
- Floating-point numbers: opaque bits, also in data objects.
- Compiler.GenerateProg: the counts of a program are below 2^32, objects of the parse tree are different objects, and annotations
  are what they come to. The table of operations is a parameter. Error messages and their positions are left out.
- CompiledReading.Compile: names have less than 65536 bytes. Its buffer has the size of the image; when the size computed beforehand
  is another one (`CompiledReading.ImageFillsProgramSizeExactly`), what the code writes behind its buffer is not modelled.
- CompiledLinking.NameDenotes: fewer than 2^31 functions in the program; names of native functions denote what the machine says.
- ImageLoader.Load: returns what it reads; the byte swapping in the buffer is left out. Sizes are not 64-bit there, since counts of
  32 bits keep every sum small and `Bytes.OrTestIsWrapTest` says what the tests in the code do.
- Linker.VirtualMachine.Load: one load for each machine; the kinds and places of loading errors, and freeing the image, are left out.
- Linker.LocalFunctionKept: for indexes in range, places without repetition and fewer than 2^31 functions in the program.
- Function symbols for printing, `object_size` and foreign calls: they would add easy members only.
