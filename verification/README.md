# Walnut: models and proofs

Walnut replays Starknet transactions and shows them as call trees, debugger steps and readable values. This
project models the parts of it that carry unbounded state or arithmetic, and proves what they keep.

- **Sierra program codec** (`Numbers`, `VecCompression`, `SierraProgram`, `SierraSerde`, `SierraProgramSerde`).
  A program is serialised to numbers, which are compressed into field elements by a dictionary and base-B digit
  packing. Decompression inverts compression on every input, trailing felts are ignored, and a program comes back up
  to debug names exactly when its names and jumps survive.
- **Call traces** (`CallTrace`, `CallTraceInvariants`, `CallTraceDepth`, `CallTraceLocations`, `CallTraceTree`,
  `CallTraceNumbering`, `CallTraceBuilding`). The builder sees only whether the frame pointer rises, falls or stays.
  On every trace its maps form a tree; on the trace of a call tree it rebuilds exactly that tree.
- **Contract calls and the merged debugger trace** (`ContractCalls`, `ContractCallsBuilding`, `DebuggerTrace`,
  `DebuggerTraceBuilding`, `DebuggerPipeline`). Preorder numbering, the flame chart of visible calls, and the recursive
  merge of the call traces, which ends because of that numbering. The three builders in a row look up nothing that is
  not there.
- **Two-phase compilation** (`CompilationProtocol`, `CompilationSafety`, `CompilationRuns`, `CompilationReaders`,
  `CompilationProgress`, `ExternalClassCaching`). Holders, waiters, readers, retries and evictions as interleaved atomic
  steps; safety over every run, when a wake-up or a reader's judgement is wrong, and no lost wake-up.
- **Calldata** (`WideIntegers`, `CalldataDecoder`, `CalldataContainment`, `CalldataCursor`, `CalldataEncoder`,
  `CalldataRoundTrip`, `CalldataAlignment`, `TypeText`). Decoding ends on every ABI whose by-value containment is
  acyclic; encoding decoded calldata gives it back exactly if it is clean.
- **Types and smaller searches** (`TypeExpander`, `CircularReferences`, `TypeExpanding`, `TypeOrders`,
  `DependencyResolver`, `ForkState`, `PcLookup`, `InternalDecoder`).

Each imperative part of the source is a class or a method with loops here, proved against a function; the theorems
are about that function. A Rust panic (`unwrap`, an index out of range) is an explicit error value.

## Findings

Properties that one would expect and that do not hold. For each there is a lemma with an input, and another with the
exact condition.

- A jump to the largest statement index comes back as a fall through (`SierraProgramSerde.LargestJumpIsLost`); a program
  comes back exactly if it has none, and its names survive (`SierraProgramSerde.ReadBackIsErasureIffFaithful`).
- Re-entering a loop can leave the nesting level behind (`CallTraceDepth.LoopBreaksTheLevel`). The level is the depth
  throughout a trace exactly if each loop is re-entered from a call as deep as the one it was first called from
  (`CallTraceDepth.NestingIsDepthIff`).
- The reported failed contract call need not be the deepest one (`ContractCalls.DeepestFailureIsLost`). It is exactly
  if, among the failed calls of the tree in preorder, the last one deeper than the first is no less deep than any other;
  where none is deeper than the first, always (`ContractCalls.ReportedIsDeepestIff`).
- A waiter may be woken for a class that was evicted meanwhile (`CompilationRuns.EvictionWakesForNothing`). After the
  holder recorded its result the class is gone exactly if its last record was lost, and nothing recorded it again
  (`CompilationSafety.WokenForNothingIff`).
- A reader's two looks can take a success for a failure (`CompilationReaders.ReaderIsMisled`), but only if the writer of
  the entry it saw finishes between them (`CompilationReaders.WrongOnlyIfFinishedBetween`). Where the class still has an
  entry of that writer, looking at it once more decides: the phase failed exactly if the entry has no inline data, and
  succeeded exactly if it has (`CompilationReaders.SecondLookDecides`).
- Fixed-size arrays come back from the encoder with their length in front
  (`CalldataRoundTrip.FixedArrayGainsItsLength`). Calldata comes back exactly if it is clean, which excludes them
  (`CalldataAlignment.CalldataComesBackIffClean`).
- Structs are marked as circular references without a cycle: where two members share one
  (`CircularReferences.SharedStructIsMarkedCircular`), and where an inner struct comes first in the map's order
  (`CircularReferences.EarlierStartIsMarkedCircular`). Nothing is marked exactly if the structs form trees below the
  starts (`CircularReferences.OneStartHasNoMarkIff`, `TypeExpanding.StructExpander.ExpandAll`). Of the ABI alone: no
  order of the map leaves a mark exactly if no struct contains a struct (`TypeOrders.NoOrderMarksIff`), and some order
  leaves none exactly if the structs form a forest (`TypeOrders.SomeOrderLeavesNoMarkIff`).
- Builtins and unreadable arrays inside a struct leave the cursor behind (`InternalDecoder.SkippedFieldsMisalign`,
  `InternalDecoder.UnreadableArraysMisalign`). It moves by the type's size exactly if all parts are aligned
  (`InternalDecoder.CursorMovesBySizeIffAligned`).
- A traced program counter, which numbers cells from one, is searched for among offsets that number them from zero. It
  finds the instruction of the counter mapping exactly if that has more than one cell, and else the next one, or none
  (`PcLookup.TracedLookup`).
- A dependency of a resolved package need not be met by the version that is pinned for it, although one version would
  meet all requests (`DependencyResolver.LateRequestIsIgnored`). A request for a direct dependency is met exactly if the
  best version for the project's own request meets it (`DependencyResolver.RequestIsMetIff`).

## Model

| member | source | states |
|---|---|---|
| `VecCompression.DistinctIsTheValueSet` | crates/walnut-shared/src/felt252_vec_compression.rs:15-19 | the dictionary holds each value once, in order of first occurrence |
| `VecCompression.PaddedSizeIsLeastPowerOfTwo` | crates/walnut-shared/src/felt252_vec_compression.rs:21 | the base is the least power of two that is at least 256 and holds all code words |
| `VecCompression.WordsPerFeltIsUnique` | crates/walnut-shared/src/felt252_vec_compression.rs:86-95 | the chunk width is the one k with B^k below the prime and B^(k+1) not |
| `VecCompression.ComputeWordsPerFelt` | crates/walnut-shared/src/felt252_vec_compression.rs:86-95 | the loop ends and computes the largest such width, for every base from 2 below the prime |
| `VecCompression.UnpackInvertsPack` | crates/walnut-shared/src/felt252_vec_compression.rs:37-43 | peeling digits inverts packing them |
| `VecCompression.PackBelowPow` | crates/walnut-shared/src/felt252_vec_compression.rs:37-43 | k digits pack to a number below B^k |
| `VecCompression.RunCompress` | crates/walnut-shared/src/felt252_vec_compression.rs:13-45 | the loops of `compress` produce dictionary, padding, count and packed chunks |
| `VecCompression.RunDecompress` | crates/walnut-shared/src/felt252_vec_compression.rs:48-77 | the loops of `decompress`, with every way to reject |
| `VecCompression.DecompressInvertsCompress` | crates/walnut-shared/src/felt252_vec_compression.rs:13-77 | for every sequence, with any felts after it, decompression gives the sequence back |
| `VecCompression.CompressIsInjective` | crates/walnut-shared/src/felt252_vec_compression.rs:13-45 | different sequences compress differently |
| `VecCompression.CompressYieldsFelts` | crates/walnut-shared/src/felt252_vec_compression.rs:34-44 | every emitted number is below the prime if the values are |
| `VecCompression.DecompressIsRandomAccess` | crates/walnut-shared/src/felt252_vec_compression.rs:48-77 | for any input: success exactly if header and digits are in range, and then each word is a direct lookup of its digit |
| `SierraSerde.DeserializeVec` | crates/walnut-shared/src/felt252_serde.rs:165-175 | the loop over the elements reads what the recursive reader does |
| `SierraSerde.WriteVecFraming` | crates/walnut-shared/src/felt252_serde.rs:156-175 | a vector is read back whole and leaves what follows, if its elements do |
| `SierraSerde.NatToBytesInvertsBytesToNat` | crates/walnut-shared/src/felt252_serde.rs:238-271 | bytes come back from their number if the first is not zero |
| `SierraSerde.NameSurvives` | crates/walnut-shared/src/felt252_serde.rs:211-271 | exactly which generic names come back unchanged |
| `SierraSerde.NameFraming` | crates/walnut-shared/src/felt252_serde.rs:238-271 | what is read back for any name that can be written |
| `SierraSerde.UnpackInfo` | crates/walnut-shared/src/felt252_serde.rs:487-546 | the four flags come back from their packed bits |
| `SierraSerde.TypeInfoFraming` | crates/walnut-shared/src/felt252_serde.rs:481-546 | long id and optional type info are read back and leave what follows |
| `SierraSerde.BranchFrames` | crates/walnut-shared/src/felt252_serde.rs:705-724 | a branch is read back, its target up to the largest index |
| `SierraSerde.StatementFrames` | crates/walnut-shared/src/felt252_serde.rs:548-640 | statements are framed |
| `SierraSerde.FunctionFraming` | crates/walnut-shared/src/felt252_serde.rs:548-581 | signatures, parameters and entry points are framed |
| `SierraProgramSerde.SerializeProgram` | crates/walnut-shared/src/felt252_serde.rs:372-409 | a class: pushing into the output vector appends exactly the program's words, or stops with its error |
| `SierraProgramSerde.DeserializeProgram` | crates/walnut-shared/src/felt252_serde.rs:411-472 | the loops of the reader compute the recursive reader |
| `SierraProgramSerde.ProgramFraming` | crates/walnut-shared/src/felt252_serde.rs:371-472 | a program is read back from its words whatever follows them |
| `SierraProgramSerde.WriteProgramAccepts` | crates/walnut-shared/src/felt252_serde.rs:372-409 | exactly which programs can be serialised |
| `SierraProgramSerde.SierraReadBack` | crates/walnut-shared/src/felt252_serde.rs:68-112 | versions and program come back through serialisation and compression |
| `SierraProgramSerde.ReadBackIsErasureIffFaithful` | crates/walnut-shared/src/felt252_serde.rs:68-112 | what comes back is the program without debug names exactly if names and jumps survive |
| `SierraProgramSerde.SierraRoundTrip` | crates/walnut-shared/src/felt252_serde.rs:68-112 | the whole round trip, with the exact condition, and trailing felts ignored |
| `SierraProgramSerde.LargestJumpIsLost` | crates/walnut-shared/src/felt252_serde.rs:705-724 | a jump to `usize::MAX` comes back as a fall through |
| `CallTraceInvariants.OpenCallKeeps` | crates/internal-tracing/src/call_trace.rs:424-518 | opening a call keeps all invariants, and the call is listed by its parent |
| `CallTraceInvariants.LinkLists` | crates/internal-tracing/src/call_trace.rs:669-688 | the k-th contract call syscall appends exactly the k-th child to the current call's children |
| `CallTraceInvariants.EmitLists` | crates/internal-tracing/src/call_trace.rs:689-716 | an event gets a fresh id and is listed by the current call, as an event and as a child |
| `CallTraceInvariants.SysCallKeeps` | crates/internal-tracing/src/call_trace.rs:659-722 | system calls keep all invariants, and only a missing contract child stops them |
| `CallTraceInvariants.CloseCallKeeps` | crates/internal-tracing/src/call_trace.rs:548-578 | recording results and panics keeps all invariants |
| `CallTraceInvariants.StepKeeps` | crates/internal-tracing/src/call_trace.rs:239-327 | every trace entry keeps them, loops and unnamed functions included |
| `CallTraceInvariants.BuildKeepsTree` | crates/internal-tracing/src/call_trace.rs:138-202 | for every trace: no lookup fails, every call but the root has an earlier parent that lists it, no id is listed twice, earlier maps stay |
| `CallTraceDepth.StepTracksDepth` | crates/internal-tracing/src/call_trace.rs:329-366 | if level and depth agree before a step they agree after it exactly if the step does not re-enter a loop at another depth |
| `CallTraceDepth.NestingIsDepthIff` | crates/internal-tracing/src/call_trace.rs:329-366 | for every trace: level and depth agree throughout, and a reported panic's level is its call's depth, exactly if each loop is re-entered at the depth of the call it returns to |
| `CallTraceDepth.NestingIsDepthWithoutReentry` | crates/internal-tracing/src/call_trace.rs:345-352 | hence on every trace that names each loop at most once |
| `CallTraceDepth.NestingIsDepth` | crates/internal-tracing/src/call_trace.rs:329-366 | and, as a corollary, on every trace that enters no loop |
| `CallTraceDepth.LoopBreaksTheLevel` | crates/internal-tracing/src/call_trace.rs:345-352 | the input that shows it: a trace that re-enters a loop from one call deeper; the condition is that of `NestingIsDepthIff` |
| `CallTraceLocations.LocationChangesAreSteps` | crates/internal-tracing/src/call_trace.rs:597-657 | a statement adds exactly its changes of location to the debugger trace, in order |
| `CallTraceLocations.RepetitionAddsNothing` | crates/internal-tracing/src/call_trace.rs:619-654 | a statement with the locations of the one before adds no step |
| `CallTraceTree.RunBody` | crates/internal-tracing/src/call_trace.rs:239-327 | on a flattened body the state machine does what recursion over the body does |
| `CallTraceTree.RunCall` | crates/internal-tracing/src/call_trace.rs:329-366 | entering, running and leaving a callee is one call of the tree |
| `CallTraceNumbering.DenoteCallApplies` | crates/internal-tracing/src/call_trace.rs:424-546 | a call adds exactly its subtree's calls, events and exits, by closed form |
| `CallTraceNumbering.BuildRebuildsTree` | crates/internal-tracing/src/call_trace.rs:138-202 | from the flat trace of a call tree: current call is the root, level zero, and the maps are exactly the tree's |
| `CallTraceNumbering.DeepestPanicIsReported` | crates/internal-tracing/src/call_trace.rs:548-563 | the reported panic is the first returned one of the greatest depth |
| `CallTraceNumbering.NodeExitsInside` | crates/internal-tracing/src/call_trace.rs:520-546 | every returned call is one of the new calls, deeper than its caller |
| `CallTraceNumbering.NodeIdsAreContiguous` | crates/internal-tracing/src/call_trace.rs:424-518 | a subtree's calls and events take up exactly one interval of ids |
| `CallTraceNumbering.CheckRootReports` | crates/internal-tracing/src/call_trace.rs:724-755 | the root is reported only if no call was, and the lookup succeeds |
| `CallTraceBuilding.CallTraceBuilder.CreateNewFunctionCall` | crates/internal-tracing/src/call_trace.rs:424-518 | the maps, the counter and the current call after a new call |
| `CallTraceBuilding.CallTraceBuilder.HandleFunctionEntry` | crates/internal-tracing/src/call_trace.rs:329-366 | entering a function, a loop or nothing |
| `CallTraceBuilding.CallTraceBuilder.CheckForPanicResult` | crates/internal-tracing/src/call_trace.rs:548-563 | the deepest panic after looking at results |
| `CallTraceBuilding.CallTraceBuilder.HandleFunctionExit` | crates/internal-tracing/src/call_trace.rs:520-546 | leaving a function, only to a caller with the same frame pointer |
| `CallTraceBuilding.CallTraceBuilder.ProcessDebuggerTrace` | crates/internal-tracing/src/call_trace.rs:597-657 | the loops that append location entries |
| `CallTraceBuilding.CallTraceBuilder.HandleSystemCalls` | crates/internal-tracing/src/call_trace.rs:659-722 | linking contract calls and events |
| `CallTraceBuilding.CallTraceBuilder.ProcessTraceEntry` | crates/internal-tracing/src/call_trace.rs:239-327 | one entry is one step of the state machine |
| `CallTraceBuilding.CallTraceBuilder.CheckRootPanicResult` | crates/internal-tracing/src/call_trace.rs:724-755 | the root's results as a fallback |
| `CallTraceBuilding.CallTraceBuilder.Build` | crates/internal-tracing/src/call_trace.rs:138-202 | the in-place builder reaches the state of the specification, or stops for its reason, and leaves a tree |
| `ContractCalls.CallsAreContiguous` | crates/simulate/src/contract_calls_map.rs:92-107 | a list of trees takes up exactly the next ids |
| `ContractCalls.BelowIsContiguous` | crates/simulate/src/contract_calls_map.rs:109-198 | each subtree is an interval of ids that starts at its call |
| `ContractCalls.CallsAreLinked` | crates/simulate/src/contract_calls_map.rs:109-198 | parents, children and levels agree below any call |
| `ContractCalls.AllCallsAreATree` | crates/simulate/src/contract_calls_map.rs:51-198 | ids 1 to n in preorder, children in order, parent and child links agree, levels are one more |
| `ContractCalls.ChartShowsVisible` | crates/simulate/src/contract_calls_map.rs:152-193 | the chart of any list of trees shows its visible calls in id order, each below its nearest visible caller |
| `ContractCalls.FlameChartShowsVisibleCalls` | crates/simulate/src/contract_calls_map.rs:51-198 | the flame chart's preorder is the visible calls' preorder, hidden calls spliced out |
| `ContractCalls.LastDeeperFailureIsReported` | crates/simulate/src/contract_calls_map.rs:141-149 | the reported failure is the last one deeper than the first failed call, or else the first |
| `ContractCalls.FailuresAreFailedCalls` | crates/simulate/src/contract_calls_map.rs:141-149 | the builder comes to exactly the failed calls of the map, once each, in the order of their ids |
| `ContractCalls.ReportedIsDeepestIff` | crates/simulate/src/contract_calls_map.rs:141-149 | the reported call failed, and it is a deepest failed one exactly if the last failure of the tree that is deeper than the first one is no less deep than any other failure, or none is deeper than the first |
| `ContractCalls.NoEarlierIsDeeper` | crates/simulate/src/contract_calls_map.rs:141-149 | as a corollary: exactly if no failed call with a smaller id is deeper, so calls after the reported one are never deeper |
| `ContractCalls.DeepestFailureIsLost` | crates/simulate/src/contract_calls_map.rs:141-149 | the input that shows it is not always: a tree of six calls below the root; the condition is that of `ReportedIsDeepestIff` |
| `ContractCallsBuilding.ContractCallsMapBuilder.ProcessCall` | crates/simulate/src/contract_calls_map.rs:109-198 | one call and everything below it: map, counter, chart and failure |
| `ContractCallsBuilding.ContractCallsMapBuilder.Traverse` | crates/simulate/src/contract_calls_map.rs:92-107 | the loop over nested calls |
| `ContractCallsBuilding.ContractCallsMapBuilder.RecordFailure` | crates/simulate/src/contract_calls_map.rs:141-149 | the failure kept after one more failed call |
| `ContractCallsBuilding.ContractCallsMapBuilder.Build` | crates/simulate/src/contract_calls_map.rs:51-90 | the whole map is the numbered tree, and the chart shows its visible calls |
| `DebuggerTrace.BuildersOrderCalls` | crates/simulate/src/contract_calls_map.rs:109-198 | the two builders give callees larger ids than callers, so the merge ends |
| `DebuggerTrace.BuildersNestCalls` | crates/simulate/src/contract_calls_map.rs:51-198 | and give each call an interval of ids that holds its callees' in order |
| `DebuggerTrace.MergeKeepsOrder` | crates/simulate/src/debugger_trace.rs:47-125 | the merged trace holds a call's own location entries once and in order, and of every other call all or none |
| `DebuggerTrace.FirstIsFirst` | crates/simulate/src/debugger_trace.rs:73-91 | the recorded position is the first one that concerns the call |
| `DebuggerTraceBuilding.DebuggerTraceBuilder.PushLocation` | crates/simulate/src/debugger_trace.rs:62-91 | pushing an entry keeps all indices at first positions |
| `DebuggerTraceBuilding.DebuggerTraceBuilder.MergeDebuggerTrace` | crates/simulate/src/debugger_trace.rs:47-125 | the recursion appends the specified steps, or stops on a missing call |
| `DebuggerTraceBuilding.StepIndexIsFirst` | crates/simulate/src/debugger_trace.rs:29-45 | a step index points to the first own entry, or else to the contract call's first; none only if there is neither |
| `DebuggerTraceBuilding.Build` | crates/simulate/src/debugger_trace.rs:15-45 | the trace and the indices of all function and contract calls, in any order of the map |
| `DebuggerPipeline.BuildAllResolves` | crates/simulate/src/function_calls.rs:56-140 | over any contract calls with VM data, in any order: every function call belongs to a contract call, and what the debugger traces name is there |
| `DebuggerPipeline.MergeNeverStops` | crates/simulate/src/debugger_trace.rs:47-125 | if all that contract calls and traces name is there, the merge of each of them succeeds |
| `DebuggerPipeline.NoLookupFails` | crates/simulate/src/debugger.rs:90-122 | for every call tree, VM traces and order: if the builders do not stop, neither does the merge, and all calls' entries are in order |
| `DebuggerPipeline.CreateFunctionCallsMap` | crates/simulate/src/function_calls.rs:56-140 | the loop that builds the contract calls' function calls on shared maps and one counter |
| `DebuggerPipeline.DebugTransaction` | crates/simulate/src/debugger.rs:90-122 | the three builders in a row: the merged trace and the step indices of all function calls |
| `CompilationSafety.HolderKeeps` | crates/internal-tracing/src/debugger_data_fetcher.rs:532-728 | every step of a compilation keeps all invariants |
| `CompilationSafety.RetryKeeps` | crates/internal-tracing/src/background_retry.rs:54-144 | every step of a retry keeps them |
| `CompilationSafety.OtherKeeps` | crates/internal-tracing/src/external_class_cache.rs:102-114 | arrivals, waiters, readers, evictions and expiries keep them |
| `CompilationSafety.RegistrationsAreExclusive` | crates/internal-tracing/src/external_class_cache.rs:200-300 | in every run: one live pair of notifiers a class, `phase1_ready` within `pending_compilations` but under the lock, and only own registrations are removed |
| `CompilationSafety.WokenMeansRecorded` | crates/internal-tracing/src/external_class_cache.rs:238-257 | a woken waiter's class is cached or marked failed, unless it lost an entry after the holder recorded its result |
| `CompilationSafety.LostMeansLoss` | crates/internal-tracing/src/external_class_cache.rs:102-114 | that loss is exactly an eviction, expiry or removal of a record that was there, after the holder recorded it |
| `CompilationSafety.LossShows` | crates/internal-tracing/src/external_class_cache.rs:102-114 | a recorded class is not recorded any more exactly if its last record was taken away and nothing recorded it again |
| `CompilationSafety.WokenForNothingIff` | crates/internal-tracing/src/external_class_cache.rs:238-257 | a wake-up is for nothing exactly if, after the holder recorded its result, the class was lost for good |
| `CompilationRuns.EvictionWakesForNothing` | crates/internal-tracing/src/external_class_cache.rs:238-257 | the input that shows it: a run of eleven events; the condition is that of `WokenForNothingIff` |
| `CompilationSafety.PartialMeansPhase2Failed` | crates/internal-tracing/src/debugger_data_fetcher.rs:288-312 | cached without inline data and not pending, in one state: the second phase of the compilation that cached it failed |
| `CompilationReaders.BuildsDecide` | crates/internal-tracing/src/debugger_data_fetcher.rs:667-726 | a second phase has failed, or succeeded, exactly if its build did in the run |
| `CompilationReaders.JudgementIsRightIff` | crates/internal-tracing/src/debugger_data_fetcher.rs:275-312 | for every run: a reader that takes a second phase for failed asked after it was over, in exactly one way, which is the result of the writer's second build in the run |
| `CompilationReaders.SecondLookDecides` | crates/internal-tracing/src/debugger_data_fetcher.rs:288-312 | at any time after the judgement, if the class has an entry of that writer: the phase failed exactly if the entry has no inline data, and succeeded exactly if it has |
| `CompilationReaders.WrongOnlyIfFinishedBetween` | crates/internal-tracing/src/debugger_data_fetcher.rs:275-312 | a wrong judgement needs the writer to remove its registration between the reader's two looks |
| `CompilationReaders.ReaderCanMisjudge` | crates/internal-tracing/src/debugger_data_fetcher.rs:275-312 | and that can happen from every state in which a reader has found an entry whose second phase is still to be built |
| `CompilationReaders.ReaderIsMisled` | crates/internal-tracing/src/debugger_data_fetcher.rs:275-312 | a run from the start in which it does; what it takes is stated by `WrongOnlyIfFinishedBetween` |
| `CompilationSafety.SuccessIsReadable` | crates/internal-tracing/src/debugger_data_fetcher.rs:663-726 | a pending task that signalled success left inline data, unless its class lost an entry after it recorded its result |
| `CompilationSafety.RetriesAreBounded` | crates/internal-tracing/src/background_retry.rs:54-144 | one retry a class in flight, and no more building than permits |
| `CompilationProgress.StepsRunOut` | crates/internal-tracing/src/debugger_data_fetcher.rs:532-728 | every step of a compilation brings it closer to its end |
| `CompilationProgress.NoWakeUpIsLost` | crates/internal-tracing/src/external_class_cache.rs:238-285 | a watched channel was sent, or its holder, or the lock's holder, can take a step towards sending it, whatever builds yield |
| `CompilationProgress.WatcherCanBeWoken` | crates/internal-tracing/src/external_class_cache.rs:238-285 | from every state: these two alone can run until the waiter is woken, in no more steps than they have left |
| `CompilationProgress.EveryWatcherCanBeWoken` | crates/internal-tracing/src/external_class_cache.rs:238-285 | so in every run a waiter that watches a channel is at most 26 steps and its wake-up from returning |
| `ExternalClassCaching.ExternalClassCache.Set` | crates/internal-tracing/src/external_class_cache.rs:117-136 | the cache after `set`, as the protocol's event |
| `ExternalClassCaching.ExternalClassCache.UpdateInlineData` | crates/internal-tracing/src/external_class_cache.rs:140-164 | inline data is added to an entry that is there, and to nothing else |
| `ExternalClassCaching.ExternalClassCache.StartCompilation` | crates/internal-tracing/src/external_class_cache.rs:200-225 | refused exactly if pending, else registered in both maps |
| `ExternalClassCaching.ExternalClassCache.SignalPhase1Ready` | crates/internal-tracing/src/external_class_cache.rs:229-234 | sent, then removed |
| `ExternalClassCaching.ExternalClassCache.FinishCompilation` | crates/internal-tracing/src/external_class_cache.rs:295-300 | sent, then removed |
| `ExternalClassCaching.CompileInTwoPhases` | crates/internal-tracing/src/debugger_data_fetcher.rs:532-728 | when nothing interrupts it, the spawned task goes through the protocol's events in order and leaves no registration, whatever its builds yield |
| `ExternalClassCaching.SoloIsRun` | crates/internal-tracing/src/debugger_data_fetcher.rs:532-728 | what a task does alone is a run of the protocol, from any state in which it is where it starts |
| `ExternalClassCaching.ProgramIsRun` | crates/internal-tracing/src/debugger_data_fetcher.rs:532-728 | so the task's arrival and its whole program are a run from any state without it, with the shared maps that the methods leave |
| `WideIntegers.SplitTwoInvertsJoinTwo` | crates/data-decoder/src/lib.rs:129-147 | `u256` limbs come back exactly if the low one has at most 128 bits |
| `WideIntegers.JoinFourNests` | crates/data-decoder/src/lib.rs:151-175 | the shifts and ors of `u512` are nested pairs |
| `WideIntegers.SplitFourInvertsJoinFour` | crates/data-decoder/src/lib.rs:1092-1107 | `u512` limbs come back exactly if all but the top one have at most 128 bits |
| `CalldataContainment.RankedIffAcyclic` | crates/data-decoder/src/calldata_decoder.rs:167-189 | the ranking that decoding takes exists exactly if no struct contains itself by value |
| `CalldataContainment.DecodeIgnoresRank` | crates/data-decoder/src/calldata_decoder.rs:42-191 | and does not affect what is decoded |
| `CalldataCursor.DecodeType` | crates/data-decoder/src/calldata_decoder.rs:42-191 | the recursive decoder with its cursor computes the specification, and ends, under any ranking |
| `CalldataCursor.DecodeCalldataToEnd` | crates/data-decoder/src/calldata_decoder.rs:14-40 | so decoding ends on every ABI in which no struct contains itself by value |
| `CalldataCursor.DecodeItems` | crates/data-decoder/src/calldata_decoder.rs:99-105 | the loop over array elements |
| `CalldataCursor.DecodeTupleItems` | crates/data-decoder/src/calldata_decoder.rs:151-166 | the loop over tuple elements |
| `CalldataCursor.DecodeFields` | crates/data-decoder/src/calldata_decoder.rs:167-189 | the loop over members |
| `CalldataCursor.DecodeAll` | crates/data-decoder/src/calldata_decoder.rs:14-40 | the loop over parameters, and that all felts have to be used |
| `CalldataRoundTrip.DecodedMatches` | crates/server/src/calldata_encoder.rs:57-214 | encoding any decoded value gives its felts back if they are clean, and only then unless wide integers stand in fixed arrays |
| `CalldataRoundTrip.EnumMatches` | crates/server/src/calldata_encoder.rs:181-208 | for enums: a data-carrying variant that is the first of its name |
| `CalldataRoundTrip.WideMatches` | crates/data-decoder/src/lib.rs:1083-1109 | for `u256` and `u512`: limbs of 128 bits below the top one |
| `CalldataRoundTrip.UnknownNoShorter` | crates/server/src/calldata_encoder.rs:146-171 | under an unknown element type no felt is lost unless wide integers are inside |
| `CalldataRoundTrip.CleanCalldataComesBack` | crates/server/src/calldata_encoder.rs:313-347 | clean calldata comes back from decode and encode, felt by felt |
| `CalldataAlignment.DecodedSettles` | crates/server/src/calldata_encoder.rs:57-214 | if encoding gives the calldata back, the encoder never falls behind the decoder, and is level with it only over clean felts |
| `CalldataAlignment.UnknownStaysPending` | crates/server/src/calldata_encoder.rs:146-171 | wide integers in fixed arrays, which are encoded shorter, cannot make up for the length that was written |
| `CalldataAlignment.CalldataComesBackIffClean` | crates/server/src/calldata_encoder.rs:313-347 | for every ABI with distinct variant names, or without fixed arrays of wide integers: calldata that decodes comes back exactly if it is clean |
| `CalldataRoundTrip.FixedArrayGainsItsLength` | crates/server/src/calldata_encoder.rs:146-171 | fixed arrays of felts, of any length, come back with their length in front |
| `CalldataRoundTrip.DecodeExtends` | crates/data-decoder/src/calldata_decoder.rs:42-191 | success leaves the end of the data, and does not depend on felts after it |
| `CalldataRoundTrip.NoTrailingFelts` | crates/data-decoder/src/calldata_decoder.rs:35-37 | no proper extension of accepted calldata is accepted |
| `TypeText.ParseTupleTypes` | crates/server/src/calldata_encoder.rs:11-40 | the loop with its bracket counters splits at top-level commas |
| `TypeText.SplitFindsElements` | crates/server/src/calldata_encoder.rs:11-40 | on the text of a tuple it finds exactly the element types, however they nest |
| `TypeText.DecoderSplitsFlatTuplesOnly` | crates/data-decoder/src/starknet_types.rs:111-125 | the decoder's split finds them exactly if no element has a comma in its text |
| `TypeText.HasCommaIsAboutText` | crates/data-decoder/src/starknet_types.rs:111-125 | the model's test for commas agrees with the text |
| `TypeExpander.ExpandInlinesOnce` | crates/data-decoder/src/type_decoder.rs:537-622 | everything one call visits is inlined in its result exactly once |
| `TypeExpander.OnceMeansNoRepeat` | crates/data-decoder/src/type_decoder.rs:537-622 | hence no name repeats on any path of nested members |
| `TypeExpander.ExpandKeepsEntries` | crates/data-decoder/src/type_decoder.rs:537-622 | entries keep member names and order, inlined members are the entry of their struct, and nothing entered changes |
| `TypeExpanding.StructExpander.ExpandStruct` | crates/data-decoder/src/type_decoder.rs:537-622 | the in-place recursion ends on any graph and computes the specification |
| `TypeExpanding.StructExpander.ExpandAll` | crates/data-decoder/src/type_decoder.rs:504-518 | in any order of names, which it follows, every struct gets an entry, and each is a start or inlined in exactly one place; no entry holds a mark exactly if each struct but the starts is the type of one member, and the starts of none |
| `TypeOrders.NoOrderMarksIff` | crates/data-decoder/src/type_decoder.rs:504-518 | every order of the structs, each named once, leaves no mark exactly if no struct contains a struct |
| `TypeOrders.SomeOrderLeavesNoMarkIff` | crates/data-decoder/src/type_decoder.rs:504-518 | some order leaves no mark exactly if each struct is the type of at most one member and hangs from one that is of none |
| `CircularReferences.MarksOfStruct` | crates/data-decoder/src/type_decoder.rs:537-622 | from any state: marks and inlined structs make up all struct-typed members of the structs visited |
| `CircularReferences.VisitsExactlyReachable` | crates/data-decoder/src/type_decoder.rs:537-622 | from nothing visited, a struct visits exactly what is reachable from it |
| `CircularReferences.OneStartHasNoMarkIff` | crates/data-decoder/src/type_decoder.rs:566-576 | its expansion holds no mark exactly if the reachable structs form a tree below it |
| `CircularReferences.SharedStructIsMarkedCircular` | crates/data-decoder/src/type_decoder.rs:566-576 | an input that shows marks without a cycle, in a graph where two members share a struct; the condition is that of `OneStartHasNoMarkIff` |
| `CircularReferences.EarlierStartIsMarkedCircular` | crates/data-decoder/src/type_decoder.rs:510-515 | and one without sharing, by the order of the map; the condition is that of `ExpandAll` |
| `DependencyResolver.Choose` | crates/scarb-dep-resolver/src/resolver.rs:87-110 | the highest version that meets the constraint and the starknet version, or none does |
| `DependencyResolver.Round` | crates/scarb-dep-resolver/src/resolver.rs:71-133 | one round pins best versions and queues their normal dependencies |
| `DependencyResolver.Resolve` | crates/scarb-dep-resolver/src/resolver.rs:24-136 | it ends over any finite registry; pins are best, requests have a reason, and dependencies of pins are visited |
| `DependencyResolver.PinsStay` | crates/scarb-dep-resolver/src/resolver.rs:54-64 | once a name was visited its pin is final |
| `DependencyResolver.FirstBatchDecides` | crates/scarb-dep-resolver/src/resolver.rs:54-133 | the first batch that names a package decides its pin: the best version for that batch's last request for it that any version meets |
| `DependencyResolver.OwnRequestDecides` | crates/scarb-dep-resolver/src/resolver.rs:44-133 | a direct dependency is pinned at the best version for the project's own request, whatever else asks for it |
| `DependencyResolver.RequestIsMetIff` | crates/scarb-dep-resolver/src/resolver.rs:54-64 | another request for it is met exactly if that version meets it |
| `DependencyResolver.LateRequestIsIgnored` | crates/scarb-dep-resolver/src/resolver.rs:54-64 | the input that shows it is not always, though one version would meet both requests |
| `ForkState.ForkStateReader.constructor` | crates/simulate/src/state.rs:188-220 | the cache starts as the replay of the earlier transactions, and is empty for the first of a block |
| `ForkState.ForkStateReader.PrepareStorageView` | crates/simulate/src/state.rs:238-319 | the replay loop stops before the simulated transaction |
| `ForkState.ForkStateReader.CollectStorageDiffs` | crates/simulate/src/state.rs:321-332 | later diffs overwrite earlier ones |
| `ForkState.ForkStateReader.GetStorageAt` | crates/simulate/src/state.rs:614-648 | a read answers as the overlay does, and changes no later answer |
| `ForkState.ForkStateReader.ReadMany` | crates/simulate/src/state.rs:614-648 | any sequence of reads answers as the overlay does |
| `ForkState.LaterWritesWin` | crates/simulate/src/state.rs:321-332 | a transaction's writes are read unless a later one overwrote them |
| `PcLookup.GetPcMappings` | crates/internal-tracing/src/utils.rs:112-120 | the mapping from counters is one to one with instructions |
| `PcLookup.BuildOffsets` | crates/internal-tracing/src/utils.rs:129-136 | offsets are prefix sums |
| `PcLookup.FindInstructionIndex` | crates/internal-tracing/src/utils.rs:157-165 | the one instruction whose code holds the counter, and none past the end |
| `PcLookup.TracedLookup` | crates/internal-tracing/src/utils.rs:112-165 | at a counter that the mapping has, the search finds the same instruction exactly if that has more than one cell, and else the next one or none; one below the counter it would always find it |
| `InternalDecoder.VariantIndexInvertsSelector` | crates/data-decoder/src/internal_function_decoder.rs:112-119 | variants and selectors correspond one to one |
| `InternalDecoder.CursorMovesBySize` | crates/data-decoder/src/internal_function_decoder.rs:15-187 | if all parts decode, the cursor moves by exactly the type's size |
| `InternalDecoder.DecodeStandardStruct` | crates/data-decoder/src/internal_function_decoder.rs:252-288 | the loop over fields, and exactly when it ends at the struct's end with a value |
| `InternalDecoder.CursorStaysWithin` | crates/data-decoder/src/internal_function_decoder.rs:15-187 | the cursor never passes the end of the type's layout, whatever decodes |
| `InternalDecoder.CursorMovesBySizeIffAligned` | crates/data-decoder/src/internal_function_decoder.rs:15-187 | it ends there exactly if every part is aligned: leaves of one cell, builtins of none, readable arrays and valid selectors; and then the value decodes exactly if a part shows |
| `InternalDecoder.SkippedFieldsMisalign` | crates/data-decoder/src/internal_function_decoder.rs:252-288 | an input that shows a builtin leaving the cursor behind; the condition is that of `CursorMovesBySizeIffAligned` |
| `InternalDecoder.UnreadableArraysMisalign` | crates/data-decoder/src/internal_function_decoder.rs:290-330 | an array that cannot be read does the same |

## Left out

- Integer widths: ids, levels and indices are unbounded here; the source's `u32` and `i32` counters would wrap or panic.
- Keccak and the table of long generic ids are parameters; they are assumed to have names longer than 31 bytes and distinct keys. Their content is not part of this model.
- The comparison of ids that ignores debug names belongs to cairo-lang-sierra, which is not part of this model.
- `decompress` with a padded code size below 2 is an outcome of its own (it does not end), which `compress` never causes.
- Call traces: arguments, decoded results, code locations of calls, and the name test that recognises loops, which is a flag of the entry.
- Compilation protocol: what builds do, persistence, `cached_at` and the cache's own expiry rule (any entry may be evicted at any time); a retry may be enqueued at any time, not only after a timeout. Readers that find inline data, or no entry at all, are not followed further. Panicking and cancelled tasks are not modelled, and the compiled class hash is assumed to be the requested one.
- ExternalClassCaching.CompileInTwoPhases: runs without interruption, which is one run of the protocol (`ExternalClassCaching.ProgramIsRun`); what interleaving allows is stated of the protocol, not of the class.
- Calldata: `u256` and `u512` are assumed to be the core library's structs, names to be simplified identifiers that do not start with `Tuple` (such a name would send the decoder into endless recursion), and the encoder's maps to hold the decoder's definitions. A tuple with a comma inside an element is rejected: its pieces name no type.
- CalldataAlignment.CalldataComesBackIffClean: says nothing of an ABI in which an enum repeats a variant name, which the Cairo compiler rejects, and a fixed array holds wide integers besides.
- The encoder's path for parameters whose type name contains `::` and its fallback without an ABI.
- Contract calls: gas, entry points and node names of the flame chart; the fee token test is a flag of the call.
- Type expansion of enums and of complete type information with its depth limit.
- DependencyResolver.Resolve: versions are three numbers without pre-release parts; whether a constraint parses and matches is a parameter, and a fetch that fails is a package that is not there.
- ForkState: only storage; nonces, class hashes and classes follow the same pattern. The node's answers do not change during a simulation.
- CASM instructions are assumed to take at least one cell; they take one or two.
- InternalDecoder.CursorMovesBySizeIffAligned: is about types whose leaves take at least one cell; values are not modelled, and array elements, which are read elsewhere in memory, do not move the cursor.
- HTTP handlers, databases, object storage, notifications, downloads and process spawning.
- Compilation, execution and gas accounting of Cairo, Sierra and CASM.
