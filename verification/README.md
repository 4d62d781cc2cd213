# INTJ: a verified model

INTJ puts a native launch path in front of Triton's Python launcher. A launch packs its arguments
into a key, finds the compiled kernel for that key, and launches it. This project models the parts
that decide whether the kernel it finds is the right one, and proves for each that the fast form
does what its simple specification says, over all inputs, all runs and all interleavings.

## What is modelled

**Two small compilers.** `Python.dfy`, `Heuristic.dfy` and `Grid.dfy` give Python expressions a
meaning: unbounded ints tagged int or bool, errors, short circuit and the tensor reads and divisions
an evaluation makes, in order (Python Language Reference, sections 6.7, 6.11 and 6.13). `CTarget.dfy`
gives one to the C-like lines the compilers write: declarations, blocks with scopes, checked helpers
that return from the function; a line that reads a name out of scope or unset is stuck.
`HeuristicLowering.dfy` holds the emitter as a class that appends to its lines and bumps its serial,
and `Grid.dfy` the one of grid functions; each method is proved against a function, and
`HeuristicProof.dfy`, `HeuristicSim.dfy`, `HeuristicLevels.dfy` and `GridSim.dfy` prove that running
the lines is evaluating the expression; `HeuristicAccepted.dfy` and `GridAccepted.dfy` say which programs
lower. `GridArith.dfy` is the checked int64 arithmetic they call.

**The build lock.** `BuildLock.dfy` is a state machine: any number of threads and launchers, builds
and edits nested through Python, one shared access a step.

**Hash tables.** `LinearProbe.dfy` is probing without deletion, `KernelMap.dfy` the kernel map with
its memo and growth, `ObjectTable.dfy` the table of object ids, `WordHash.dfy` the one-word hash.

**Object ids.** `PyObjects.dfy` has objects at addresses that are reused once freed, with reference
counts. `ObjectIds.dfy` runs racing threads through the memo, the table and the interner while
objects come and go; `ObjectSlots.dfy` carries what it proves down to the table's slots.

**Tuning.** `Tuning.dfy` is the role analysis of autotune and heuristics chains as it runs,
`TuningAccepted.dfy` says which chains it takes and what it finds in them, `TunedValues.dfy` what a chain
computes and why its key chain fixes it, `TuningSlots.dfy` and `TuningRender.dfy` the slots and sources
the levels are rendered with. `StableSort.dfy` is Python's `sorted`.

**The spec key.** `KeyLayout.dfy` places fields, `KeyPacking.dfy` packs and extracts them,
`SpecKey.dfy` says what one parameter puts in the key and in the compiler input, `SameKey.dfy` joins
these for a whole call and covers baked values. `IntDecode.dfy` reads CPython's ints.

**The compile cache.** `CompileCache.dfy` runs misses that nest inside the compiles they start.

`Bits.dfy`, `Words.dfy` and `Optional.dfy` are shared: two's complement on integers, the C widths, and
a value that may be missing.

## Assumptions

- Triton enters by what it documents: `native_specialize_impl` (i32, i64 or u64 by range, 1 folds, a
  multiple of 16 is divisible, a pointer's range may count), an autotuner's choice as a function of
  the descriptors and its key values that is one of its configs, a heuristic as a function of what it
  reads. torch's answers are parameters, by method name and arguments.
- An object's canonical value does not change while the object lives.
- Steps are sequentially consistent; allocation may fail at any step that allocates.
- With `verify_annotation` off, declared types are the caller's promises, so statements about the key
  are about calls that keep them.

## Where the code differs from what it says

- `intj_grid_mod` reports overflow for INT64_MIN % -1, where Python gives 0: its floor quotient leaves
  int64 (`GridArith.ModMeaning`).
- A heuristic's baked int inputs and literal tensor indices are written into C unchecked, so a
  program outside int64 is accepted; `HeuristicLevels.ValidExactly` says exactly when the C is valid.
- `analyze` refuses a heuristic that reads a name an inner layer assigns but not one its own layer
  assigns later. The guard of `tuning_render` that reports an intj bug can then fire
  (`TuningSlots.GuardCanFire`), exactly when the name is a dependent of a level not below the
  reader's (`TuningSlots.GuardFiresExactly`); where the name is a computed key no guard looks, and C
  reads a comp slot it has not filled (`TuningSlots.SlotReadTooEarly`). `TuningSlots.ReadyExactly`
  says exactly when every read is ready.
- `KernelCompiler` says it compiles once per identity and device. A miss nested in the load of its own
  identity loads it again (`CompileCache.NestedLoadsTwice`), and so does a miss after a load that
  raised or was refused, which stores nothing (`CompileCache.RetriedLoadsTwice`). There is no third
  way: `CompileCache.LoadedOnceExactly`. What always holds is that the stored kernel is never
  replaced (`CompileCache.RecordsAgree`).

## Model

| member | source | states |
|---|---|---|
| HeuristicSim.LoweringSimulates | intj/heuristic.py:300-477 | Main result: from any running state, for every accepted expression, the lines finish exactly when Python computes an int or bool with everything on the way (and the floor quotient of a mod) in int64, and leave its value and type; the tensor reads and divisions they make are Python's, in order, none that `and`, `or` or a conditional skips; they are never stuck on a name out of scope or unset |
| HeuristicSim.SimInput | intj/heuristic.py:306-322 | an input from args, a baked value, a dep or a comp slot reads as the value and type Python sees, and a caller's argument outside int64 or of another type is an error |
| HeuristicSim.SimTensor | intj/heuristic.py:479-503 | a tensor method or shape read asks the tensor Python asks, once, where Python asks it |
| HeuristicSim.SimTwoDtypes | intj/heuristic.py:380-390 | `==` and `!=` of two dtypes: both tensors are asked, left first, and the answer is whether the dtypes are one |
| HeuristicSim.SimIsNone | intj/heuristic.py:359-376 | `is None` and `is not None` of an input, without reading it |
| HeuristicSim.RestOfBoolOp | intj/heuristic.py:402-411 | after any prefix of `and` or `or`, the nested blocks run an operand exactly while the value so far leaves the answer open, and keep the deciding operand's value and type |
| HeuristicSim.SimIfExp | intj/heuristic.py:412-422 | the branch not chosen runs nothing, and the chosen one's value and type come out of its block |
| HeuristicSim.SimMinMax | intj/heuristic.py:432-447 | `min` and `max` over any two operands' lines: the first argument's value and type unless the second beats it |
| HeuristicSim.SimNextPow2 | intj/heuristic.py:461-469 | `triton.next_power_of_2` finishes exactly when the argument, one less than it and the result are in int64: INT64_MIN alone has an int64 result and does not |
| HeuristicProof.LoweredShape | intj/heuristic.py:275-288 | the operands an expression returns are temps numbered after all before it, or none, and its blocks are closed, so skipping its lines skips all of it |
| HeuristicAccepted.AcceptedExactly | intj/heuristic.py:300-477 | the expressions `emit` takes, spelled out on the syntax: every operator, comparison, call, arity, method and literal it accepts, and no other |
| HeuristicLowering.Emitter.Emit | intj/heuristic.py:300-477 | `emit` raises exactly when the lowering of the expression is undefined, and otherwise appends its lines to the shared list, advances the shared serial and returns its operands |
| HeuristicLowering.Emitter.EmitBoolOp | intj/heuristic.py:396-411 | the loop that opens a block an operand and the loop that closes them all write the nested blocks the simulation is proved of |
| HeuristicLowering.Emitter.EmitRest | intj/heuristic.py:402-410 | the same for the operands after the first |
| HeuristicLowering.Emitter.EmitCompare | intj/heuristic.py:354-395 | the comparison's temp is declared before its operands are emitted |
| HeuristicLowering.Emitter.EmitIfExp | intj/heuristic.py:412-422 | test outside, one block a branch, each storing into the pair declared before |
| HeuristicLowering.Emitter.EmitCall | intj/heuristic.py:430-471 | the calls that lower, and the refusal of every other, a shadowed builtin or a wrong arity |
| HeuristicLowering.Emitter.TensorCall | intj/heuristic.py:479-503 | the target must be a caller's argument and the index a literal int |
| HeuristicLowering.Emitter.EmitInput | intj/heuristic.py:306-322 | what each source of an input becomes; a baked value that is not an int or bool is refused |
| HeuristicLevels.LowerLevel | intj/heuristic.py:231-249 | the loop over one level's heuristics, sharing lines and serial, writes that level's function |
| HeuristicLevels.Lower | intj/heuristic.py:218-250 | `lower` succeeds exactly when every level lowers, and returns each level's lines |
| HeuristicLevels.LevelComputes | intj/heuristic.py:231-249 | one level's function finishes exactly when each of its heuristics finishes in int64, and then their comp slots hold Python's values and types, the earlier slots kept |
| HeuristicLevels.LevelsCompute | intj/heuristic.py:218-250 | all levels in turn: the run finishes exactly when every heuristic does, and then every comp slot holds its heuristic's value and type |
| HeuristicLevels.LoweredReadsOnly | intj/heuristic.py:290-292 | lowering depends on no source but those of the names the expression reads |
| HeuristicLevels.ValidExactly | intj/heuristic.py:315-327 | the C emitted has only literals int64 holds if and only if each baked int read and each literal tensor index fits: the exact condition `emit` does not check |
| HeuristicLevels.BakedLiteralUnchecked | intj/heuristic.py:315-320 | a baked 2**64 - 1 is accepted and written as a literal int64 does not have |
| GridSim.GridMeaning | intj/grid.py:164-340 | Main result: for every def accepted and every launch, with the extras in declared order, then the dynamic values, then the public arguments in the argument array and the tuned values in their dep slots, the evaluator ends without error if and only if every parameter has its annotated type, everything computed is an int or bool in int64 and every dimension is in [0, 2**32); then it leaves Python's dimensions, having divided just where Python does; it is never stuck on a temp out of scope |
| GridSim.GridSimulates | intj/grid.py:211-309 | the same for one expression under any local bindings: the value and kind Python computes, the branch not taken running nothing |
| GridSim.BodySimulation | intj/grid.py:321-334 | assignments in order: rebinding a local leaves the temps other locals name as they were, so an alias keeps its value |
| GridSim.ParamsSimulate | intj/grid.py:164-209 | every parameter's temp holds the passed, tuned or baked value, or the call fails at the first that is not of its annotated type in int64 |
| GridSim.OutputsRun | intj/grid.py:334-338 | the dimensions are written in order if all are in [0, 2**32), else the evaluator fails |
| GridSim.OutputsAccepted | intj/grid.py:335-338 | a def is refused exactly when some dimension's kind is bool |
| GridSim.PlaceFound | intj/grid.py:164-209 | each parameter is read where the launch puts what Python is called with: an extra, a tuned value, a public argument past the extras and dynamic values, or the baked one |
| Grid.GridCompiler.Emit | intj/grid.py:211-309 | the inner `emit` raises exactly when the lowering is undefined, and otherwise appends its lines and returns its temp and kind |
| Grid.GridCompiler.EmitIf | intj/grid.py:293-308 | a conditional's result is declared between the test and the block, and branches of two kinds are refused |
| Grid.LowerAssigns | intj/grid.py:321-330 | the loop over the assignments rebinds each target after its value is emitted |
| Grid.LowerResults | intj/grid.py:331-334 | the returned elements, emitted in order |
| Grid.CompileGrid | intj/grid.py:148-340 | `compile_grid`'s shared lines, serial and bindings produce the evaluator the meaning is proved of, or GridError |
| GridAccepted.AcceptedExactly | intj/grid.py:64-338 | `compile_grid` takes exactly the defs of this shape: an optional docstring, simple assignments and a return of one to three ints; int or bool parameters that are extras or kernel parameters tuned, passed or baked to that very type; `min` and `triton` unbound |
| GridAccepted.KindExactly | intj/grid.py:211-309 | an expression lowers exactly when it has a static type, and to that type |
| GridAccepted.BodyExactly | intj/grid.py:311-333 | what is taken for the assignments and the returned elements is all of the body after its docstring |
| GridArith.Floor128 | intj/runtime/intj_runtime.h:111-125 | truncated division, corrected by the remainder's sign, is Python's floor quotient; a zero divisor and a quotient outside int64 are refused |
| GridArith.FloorDivMeaning | intj/runtime/intj_runtime.h:111-125 | the floor quotient is the only one whose remainder is in the divisor's half-open range |
| GridArith.Cdiv | intj/runtime/intj_runtime.h:132-135 | ceiling division is floor division of a + b - 1 in 128 bits, so only the final quotient can overflow |
| GridArith.Mod | intj/runtime/intj_runtime.h:158-166 | mod through the floor quotient |
| GridArith.ModMeaning | intj/runtime/intj_runtime.h:158-166 | mod is Python's and in int64 for every non-zero divisor except INT64_MIN % -1, where it reports overflow and Python gives 0 |
| GridArith.NextPow2 | intj/runtime/intj_runtime.h:169-180 | the smear as it runs, with its overflow check |
| GridArith.NextPow2Meaning | intj/runtime/intj_runtime.h:168-180 | the least power of two not below n for 1 <= n <= 2**62, 0 for INT64_MIN < n <= 0, overflow for every other int64 |
| GridArith.SmearPositive | intj/runtime/intj_runtime.h:172-178 | shifts 1 to 32 fill every bit below the top one of a positive int64 |
| GridArith.SmearNegative | intj/runtime/intj_runtime.h:172-178 | a negative int64 smears to -1 |
| Bits.SmearFills | intj/runtime/intj_runtime.h:173-178 | or-ing in a right shift by j extends any run of ones downwards by j |
| BuildLock.NextInv | intj/runtime/intj_launcher_base.c:33-147 | every step of every thread, with builds and edits nested through Python, keeps the protocol's invariant |
| BuildLock.RunInv | intj/runtime/intj_launcher_base.c:33-147 | so it holds after every run |
| BuildLock.HeldCountsLocks | intj/runtime/intj_launcher_base.c:26-63 | a thread's held counter is the number of build locks it owns, but for the moments between taking or leaving one and counting it |
| BuildLock.WaitersHoldNothing | intj/runtime/intj_launcher_base.c:28-57 | a thread blocked on a build lock holds none, so never waits on its own, and the holder it waits for waits on no build lock |
| BuildLock.OneBodyAtATime | intj/runtime/intj_launcher_base.c:33-63 | at most one frame of one thread is inside a launcher's lock, and build_thread names its thread while Python runs there |
| BuildLock.SomeStepEnabled | intj/runtime/intj_launcher_base.c:28-57 | no deadlock: while any call is in flight, some thread can take a step that starts nothing new |
| BuildLock.StepsUseWork | intj/runtime/intj_launcher_base.c:33-147 | each such step uses up work, so no thread spins |
| BuildLock.CallsComplete | intj/runtime/intj_launcher_base.c:33-147 | from any reachable state every call in flight can be run to its end |
| BuildLock.RunsAreBounded | intj/runtime/intj_launcher_base.c:33-147 | no run without new calls is longer than the work left, however threads are scheduled |
| BuildLock.StepChanges | intj/runtime/intj_launcher_base.c:69-147 | options change only by an edit that holds the lock, applied to the options it read, or by the publication of a build; a built launcher never changes its entry, doc or options again but for clear |
| BuildLock.QuiescentLauncher | intj/runtime/intj_launcher_base.c:65-147 | whenever its lock is free, an unbuilt launcher's options are every edit in lock order on the initial ones, and a built one shows exactly what its one build returned |
| BuildLock.NothingLost | intj/runtime/intj_launcher_base.c:69-147 | over every run and interleaving, the edits a launcher has stored or is about to are those its edit bodies returned, in order, and its publications those its build bodies returned: none is lost or invented |
| BuildLock.OptionsAreTheLastAsked | intj/launcher.py:278-293 | so while no call is inside it an unbuilt launcher shows the last options an edit returned, and a built one what its one build returned |
| BuildLock.EditTakesEffect | intj/runtime/intj_launcher_base.c:193-216 | whatever other threads do, the next step of a thread whose edit returned stores its options on the ones it read |
| BuildLock.BuildTakesEffect | intj/runtime/intj_launcher_base.c:97-112 | and the next two of one whose build returned publish exactly its entry, options and doc |
| BuildLock.CallBegins | intj/runtime/intj_launcher_base.c:69-73 | a call of a built launcher takes no lock and leaves no trace; any other asks for it |
| BuildLock.GivesUpExactly | intj/runtime/intj_launcher_base.c:28-57 | a call gives up exactly when the launcher is built, when its own thread has that lock, or when the lock is taken and its thread has another; it waits only with none |
| BuildLock.ReachesBody | intj/runtime/intj_launcher_base.c:74-82 | an unbuilt launcher whose lock is free refuses no call: it comes to its body, with the options as they are |
| BuildLock.PublishedAtMostOnce | intj/runtime/intj_launcher_base.c:65-119 | over every run a launcher is published at most once, and is built if and only if it has been |
| BuildLock.FailedBuildLeavesNothing | intj/runtime/intj_launcher_base.c:92-118 | in any run from where a build or edit body fails, whatever steps other threads take between its thread's three steps left: its launcher's options, doc, entry, edits and publications stay as they were, and with the third step the lock is free, so the next call tries again |
| BuildLock.OneLetsGo | intj/runtime/intj_launcher_base.c:59-63 | a step that lets a launcher go changes no launcher but the lock of its own |
| BuildLock.OthersKeepOut | intj/runtime/intj_launcher_base.c:28-63 | while a call has a launcher's lock, no step of another thread changes that launcher or that call |
| BuildLock.CallInv | intj/launcher.py:278-293 | a launcher may be called, built or edited from inside any other's body |
| BuildLock.ClearInv | intj/runtime/intj_launcher_base.c:253-263 | clearing an unreachable launcher keeps the invariant |
| LinearProbe.GapMeansAbsent | intj/runtime/intj_map.h:148-160 | a probe that meets an empty slot has shown the key is nowhere in the table |
| LinearProbe.ProbeStep | intj/runtime/intj_map.h:148-160 | each step of a probe comes strictly nearer some gap, so the probe ends |
| LinearProbe.StoreKeeps | intj/runtime/intj_map.h:195-202 | storing a key in the first gap on its probe keeps every stored key reachable |
| LinearProbe.NextSlot | intj/runtime/intj_map.h:158 | masking is the wrap to slot 0 |
| KernelMap.Map.Find | intj/runtime/intj_map.h:148-160 | finds the key's live slot exactly when the map has the key; one free slot is enough for the probe to end |
| KernelMap.Map.Get | intj/runtime/intj_map.h:161-165 | the map's value or NULL |
| KernelMap.Map.Lookup | intj/runtime/intj_map.h:166-176 | the memo answers as a full find would, whatever was looked up or put before |
| KernelMap.Map.Grow | intj/runtime/intj_map.h:178-194 | growth doubles the table and loses nothing; a failed one changes nothing |
| KernelMap.Map.Put | intj/runtime/intj_map.h:177-206 | a new key is added and every other entry kept, the memo cleared; on a failed allocation map, slots and memo are as before |
| KernelMap.Map.Each | intj/runtime/intj_map.h:207-217 | visits each entry at most once, all of them unless a visitor stops it, and returns the visitor's result |
| KernelMap.FillGap | intj/runtime/intj_map.h:195-202 | the slots represent the map with the new entry and nothing else changed |
| KernelMap.RehashStep | intj/runtime/intj_map.h:183-190 | the loop over the old slots: each live one is new to the grown table |
| KernelMap.RehashDone | intj/runtime/intj_map.h:183-190 | after the last slot the grown table holds the whole map |
| WordHash.HashIsBijection | intj/runtime/intj_map.h:47-63 | the one-word hash has a two-sided inverse, so one-word keys never share a hash |
| WordHash.HashWord | intj/runtime/intj_map.h:55-63 | the five rounds as they run; the word can be read back |
| WordHash.ShiftRoundTrip | intj/runtime/intj_map.h:57-61 | `x ^ (x >> s)` is undone by one formula, for s >= 22 |
| WordHash.TimesRoundTrip | intj/runtime/intj_map.h:58-60 | multiplying by an odd constant modulo 2**64 is undone by its inverse |
| ObjectTable.Table.Find | intj/runtime/intj_runtime.h:917-930 | the slots answer (tag, key) as the log of what was recorded does |
| ObjectTable.Table.Add | intj/runtime/intj_runtime.h:936-967 | one more record exactly when the key is new and there was room or memory; then it owns the reference, else nothing changed |
| ObjectTable.Table.Grow | intj/runtime/intj_runtime.h:940-957 | 8 slots, then doubling, with every entry kept; a failed allocation changes nothing |
| ObjectTable.Table.Place | intj/runtime/intj_runtime.h:958-965 | the entry goes to the first free slot of its probe |
| ObjectTable.LookupFinds | intj/runtime/intj_runtime.h:916-930 | a lookup answers None exactly when nothing recorded matches |
| ObjectTable.MatchesByKey | intj/runtime/intj_runtime.h:908-928 | identity or content under a tag is one notion of key, so an entry matches at most one |
| ObjectTable.OtherObjects | intj/runtime/intj_runtime.h:1036-1042 | objects no entry refers to may be freed, and their addresses reused, under the table |
| ObjectIds.NextInv | intj/runtime/intj_runtime.h:1001-1127 | every step of racing calls, traverses, interning and the rest of the process, with failing allocations and reused addresses, keeps the invariant |
| ObjectIds.RunInv | intj/runtime/intj_runtime.h:1001-1127 | so it holds in every state of every run |
| ObjectIds.AnswersAgree | intj/runtime/intj_runtime.h:1036-1127 | every id any call returned is the interner's for its argument's canonical value, and two calls return one id if and only if those values are equal |
| ObjectIds.CallsAnswerRight | intj/runtime/intj_runtime.h:1043-1127 | whichever of the memo, an identity entry, a str entry, a dtype-name entry or the interner answered, the id is the interner's for that object; the TypeError is only for a value it has no id for |
| ObjectIds.CallProgresses | intj/runtime/intj_runtime.h:1043-1127 | every step of a call brings it nearer its end, and only a step that raised makes it end in an exception of Python's own; so any other call ends in an id or the TypeError |
| ObjectIds.Remembers | intj/runtime/intj_runtime.h:997-1017 | an answer is remembered: the memo has the object and its id, and the table finds the object by identity and its str by content wherever there was room or memory |
| ObjectIds.RememberedAnswers | intj/runtime/intj_runtime.h:1051-1080 | and a call the memo or the table can answer never asks the interner |
| ObjectIds.AddressesStayTrue | intj/runtime/intj_runtime.h:1036-1042 | the address a memo or identity entry compares is in memory, and is the object whose id it stores |
| ObjectIds.ReferencesConserved | intj/runtime/intj_runtime.h:936-1022 | with no call in flight, every reference is the outside's, a memo's or an entry's, counted once |
| ObjectIds.RememberInv | intj/runtime/intj_runtime.h:1001-1022 | the write section: memo and both inserts, each taken or refused, with the references it gives up |
| ObjectIds.VisitInv | intj/runtime/intj_runtime.h:260-273 | a traverse drops every reference it collected whatever its visitor returned |
| ObjectIds.CollectInv | intj/runtime/intj_runtime.h:972-983 | a traverse keeps what it visits alive while it visits |
| ObjectIds.InternedInv | intj/launcher.py:598-607 | two new values never take one id, even when two threads intern at once |
| ObjectIds.IdsStay | intj/launcher.py:598-607 | an id once given is neither changed nor given to another value |
| ObjectSlots.Ask | intj/runtime/intj_runtime.h:1025-1034 | a lookup on the slots answers as the state machine of ids does, and an id it finds is the interner's for the call's argument |
| ObjectSlots.FoundAgree | intj/runtime/intj_runtime.h:1036-1042 | two ids the slots give are equal if and only if the canonical values are |
| ObjectSlots.Record | intj/runtime/intj_runtime.h:1001-1017 | both inserts on the slots take the references some step of the state machine takes, whatever allocations fail |
| ObjectSlots.RecordSteps | intj/runtime/intj_runtime.h:1001-1017 | and leave the slots holding that step's log |
| ObjectSlots.OtherSteps | intj/runtime/intj_runtime.h:969-1042 | every other step, with objects made, freed and their addresses reused, leaves the slots holding the log |
| PyObjects.SameCanonical | intj/annotation.py:340-362 | every str, dtype, JIT function and scalar has a canonical value, and two share one if and only if they are of one kind and agree on text, name, module, qualified name and cache key, or tag and digits |
| PyObjects.DecrefCounted | intj/runtime/intj_runtime.h:1018-1021 | dropping a reference frees its object with the last one, and only then |
| Tuning.Analyze | intj/tuning.py:80-205 | the nested loops over layers, keys, configs and heuristics compute the plan, or refuse the chain |
| Tuning.Analyzer.VisitAutotuner | intj/tuning.py:152-171 | an autotuner: its keys become exact, its names dependents of the highest key's level |
| Tuning.Analyzer.VisitHeuristic | intj/tuning.py:172-196 | one heuristic: dependent if all it reads is exact, else a computed key at the level its inputs are known |
| Tuning.InnerAssigned | intj/tuning.py:139-143 | for each layer, what the layers inside it assign |
| TunedValues.KeysDetermine | intj/tuning.py:110-205 | Main result: for any accepted chain, two calls that agree on the level-0 key and on the computed keys through level L agree on every dependent and computed value of level at most L |
| TuningAccepted.TunesExactly | intj/tuning.py:134-196 | a name is tuned if and only if some config of some autotuner gives it or some heuristic is for it |
| TuningAccepted.AcceptedExactly | intj/tuning.py:110-196 | `analyze` takes a chain if and only if it has a layer and no layer gives a name twice, one an outer layer gives or a runtime parameter, reads one an inner layer gives, or has a heuristic that does not parse, reads itself or reads what is neither a parameter nor given before it |
| TuningAccepted.ExactKeysExactly | intj/tuning.py:154-161 | the exact keys are the runtime parameters some autotuner keys on |
| TuningAccepted.AutotunerRole | intj/tuning.py:152-171 | what an autotuner tunes is in the plan at the highest of its keys' levels |
| TuningAccepted.HeuristicRole | intj/tuning.py:172-196 | a heuristic is a dependent at the highest level it reads if and only if all it reads is exact, else a computed key at the highest count of lookups it needs |
| TuningAccepted.LevelsExactly | intj/tuning.py:197 | there are as many levels as the highest computed key needs, and one without any |
| TunedValues.StagesSame | intj/tuning.py:151-196 | the same after each layer, outermost first, of every name with a role so far, each choice being a whole config |
| TunedValues.LayersKeep | intj/tuning.py:151-196 | what the loops keep: every tuned name is exact and is a dependent, known one lookup after its level, or a computed key, known at its level; a name not exact is an untouched parameter |
| TunedValues.AutotuneSame | intj/tuning.py:152-171 | calls that agree on what an autotuner keys on get the same choice |
| TunedValues.HeuristicSame | intj/tuning.py:172-196 | calls that agree on what a heuristic reads get the same value |
| TuningSlots.ReadyExactly | intj/tuning.py:315-325 | every lowered heuristic reads only dependents recorded strictly below its level and computed keys in earlier slots if and only if each read of a name its own layer assigns later is of a lower level |
| TuningSlots.NoForwardReadsLower | intj/tuning.py:139-196 | a chain without forward reads inside a layer meets that condition |
| TuningSlots.GuardFiresExactly | intj/tuning.py:319-325 | the guard fires if and only if a computed heuristic reads, ahead in its own layer, a dependent of a level not below its own |
| TuningSlots.GuardNeverFires | intj/tuning.py:319-325 | so where forward reads are of lower levels it never reports a bug |
| TuningSlots.GuardCanFire | intj/tuning.py:319-325 | an accepted chain that reads ahead of a dependent fires the guard |
| TuningSlots.SlotReadTooEarly | intj/tuning.py:319-325 | an accepted chain that reads ahead of a computed key passes the guard and reads a slot not yet filled |
| TuningSlots.DependentsBelow | intj/tuning.py:197 | every dependent's and computed key's level is below `levels` |
| TuningSlots.CheckReads | intj/tuning.py:315-325 | the guard's loops refuse exactly when some computed key reads a dependent too early |
| TuningSlots.SlotsInOrder | intj/tuning.py:316 | the slots are the computed keys, ascending by level, each level's in the order they were found |
| StableSort.SortedStable | intj/tuning.py:316-335 | `sorted` by level: ascending, and each level's elements as before |
| StableSort.RunsPartition | intj/tuning.py:359-367 | a slot is of level l exactly when it lies between the prefix sums of the counts below and through l |
| StableSort.RunsCover | intj/tuning.py:359-367 | the counts add up to all the slots |
| StableSort.SortedKeepsOrder | intj/tuning.py:316 | earlier of two slots of one level stays earlier |
| TuningRender.FillSources | intj/tuning.py:343-352 | every name's source: its comp slot, else its dep slot, else the baked value or the argument |
| TuningRender.DepNamesExactly | intj/tuning.py:326-335 | the dep slots are the dependents some computed heuristic or the grid reads, each once, by level |
| TuningRender.SourcesMatch | intj/tuning.py:343-354 | each lowered read, of an argument, a baked value or a dep slot, finds the value Python reads, on any launch whose records are walked level by level |
| TuningRender.SlotsOrdered | intj/tuning.py:353-354 | comp reads go to earlier slots of levels up to the reader's |
| TuningRender.DepSlotWalked | intj/tuning.py:326-367 | a dependent a heuristic reads sits before the prefix sum of the deps below its level, so its record has been walked |
| TuningRender.RenderedLevelsCompute | intj/tuning.py:297-367 | from an accepted chain to C, on any launch: its levels finish exactly when every heuristic does in int64, and then each comp slot holds Python's value and type |
| TuningRender.Levels | intj/render/context.py:483-504 | the level views tile the dep and comp arrays in order, with their lengths, each the parent of the next, the last marked |
| KeyLayout.LayoutFields | intj/specialization.py:111-129 | any widths of 1, 2, 4 and 8 bytes: disjoint, gap-free ranges, each aligned to its width and within a word, the device byte after them, and the words they need |
| KeyLayout.NoStraddle | intj/specialization.py:111-129 | a field aligned to its width never straddles a word |
| KeyLayout.ByteCovered | intj/specialization.py:115-120 | no gap: each byte below the total is some field's |
| KeyLayout.TwoApart | intj/specialization.py:115-120 | no overlap: two fields share no byte |
| KeyPacking.PackWords | intj/render/entry.c.jinja:182-185 | or-ing each field into its word, as it runs |
| KeyPacking.PackAuto | intj/render/entry.c.jinja:187-190 | the auto path: one-byte fields through 32-bit parts, then the parts into their words, give the same words |
| KeyPacking.PathsAgree | intj/render/context.py:36-60 | the two paths' words are equal, for any fields and values |
| KeyPacking.UnlistedPart | intj/render/context.py:430-440 | a part the auto path does not list is zero |
| KeyPacking.ExtractsBack | intj/render/context.py:36-51 | each field reads back its value from its word, whatever the others hold |
| KeyPacking.KeysDiffer | intj/render/context.py:36-51 | keys with different fields differ in some word |
| KeyPacking.PackedFits | intj/render/context.py:36-51 | no word leaves 64 bits |
| KeyPacking.LayoutRoundTrip | intj/specialization.py:111-129 | fields placed by the layout, device included, read back from the packed key |
| SameKey.SameKeySameInput | intj/specialization.py:1-8 | Main result, the repository's central invariant: for any merged annotations and two calls that keep their declared types and facts, equal key words mean equal compiler inputs, level-0 computed keys, dynamic values and device |
| SameKey.ComputedFixed | intj/render/entry.c.jinja:486-489 | a level-0 computed key's payload and kind byte fix its value, so True and 1 key apart |
| SameKey.DynamicFixed | intj/render/entry.c.jinja:458-471 | a dynamic value's kind byte and eight bytes fix it |
| SameKey.SiteLaysOut | intj/specialization.py:190-203 | the fields of parameters, computed keys and dynamic values are all of the widths the layout takes |
| SameKey.SameFieldsSameInput | intj/specialization.py:334-460 | the same from equal fields |
| SameKey.FieldsFit | intj/specialization.py:34-69 | every field is a byte or two, four or eight, and its value fits it |
| SpecKey.NeverCoarser | intj/specialization.py:34-69 | one parameter: equal key fields give equal signature, constants and attributes |
| SpecKey.KeylessIsConstant | intj/specialization.py:34-69 | a parameter with no key field has a compiler entry that does not depend on its value |
| SpecKey.NeverFiner | intj/specialization.py:34-69 | the key is never finer either, exact keys apart: equal compiler entries mean equal key fields |
| SpecKey.KeyNeeded | intj/specialization.py:34-69 | a parameter with key fields may be passed two values that compile differently |
| SpecKey.ConstexprMeans | intj/specialization.py:359-370 | a constexpr is a constant of the source: the value passed, the one baked, or None when bound |
| SpecKey.PlainArgument | intj/specialization.py:372-442 | an argument nothing is declared of compiles as Triton would: 1 and None are constants, an int is i32, i64 or u64 by range, divisibility by 16 and a range within 2 GiB are told |
| SpecKey.DeclaredArgument | intj/specialization.py:372-442 | a declared type is the signature's; declared facts hold, NEVER ones do not, and the others are as the value is |
| SpecKey.BoundArgument | intj/specialization.py:359-362 | a bound argument's entry is its declared type and facts |
| SpecKey.ExactKeyFixed | intj/specialization.py:66-69 | an argument an autotuner keys on puts its exact value in the key |
| SpecKey.ArgumentFixed | intj/specialization.py:372-442 | an argument's descriptor, or its having none, fixes its type, its fold and its D and S |
| SpecKey.CodeTells | intj/runtime/intj_runtime.h:593-619 | a descriptor byte tells the fold, or else the type and every test left to Triton |
| SpecKey.CodesDistinct | intj/runtime/intj_runtime.h:593-625 | the codes with their low bits overlap neither one another nor the fold's |
| SpecKey.AutoPathSameCode | intj/render/entry.c.jinja:192-266 | the auto path's decoder and the generic one give an unannotated argument one descriptor |
| SpecKey.TypedConstexprFixed | intj/render/entry.c.jinja:380-414 | a typed constexpr's choice byte and payload, narrowed to the widest type, fix its value |
| SpecKey.UntypedConstexprFixed | intj/runtime/intj_runtime.h:1258-1274 | an untyped constexpr's kind and eight bytes fix its value, so True and 1 key apart |
| SpecKey.PowerConstexprFixed | intj/runtime/intj_runtime.h:1276-1283 | the power byte fixes its value, +2**63 and -2**63 included |
| SpecKey.PowerCodeOf | intj/runtime/intj_runtime.h:1276-1283 | the power byte is the exponent and one, with the sign on top |
| SpecKey.FirstFitFits | intj/scalar_types.py:62-107 | the type a value keys as is one it fits, and there is one whenever it fits any |
| SpecKey.KeyedNarrowest | intj/scalar_types.py:62-78 | and no type it fits is narrower |
| SameKey.BakingIsPassing | intj/annotation.py:700-835 | the compiler input with a value baked, its type and facts settled at merge, is, for arguments and constexprs, the one with that value passed under the unbaked annotation; the baked parameter has no key |
| SameKey.BakedArgumentExactly | intj/annotation.py:709-785 | the values an argument takes baked: scalars of its type, or of the type Triton infers where it leaves it open, that every declared fact applies to and holds of |
| SameKey.BakedConstexprExactly | intj/annotation.py:701-741 | a constexpr takes baked exactly the values a call may pass it |
| IntDecode.AsInt | intj/python_intf/cpython_abi.h:98-119 | for any normalized digits in either layout: int64, uint64 or too big precisely by the value's range, and the value modulo 2**64 |
| IntDecode.AsI64 | intj/python_intf/cpython_abi.h:70-88 | succeeds exactly when the value is in int64, and returns it |
| IntDecode.LongMagnitude | intj/python_intf/cpython_abi.h:56-67 | the shift-or loop is the positional sum of up to three digits |
| IntDecode.LongCompact | intj/python_intf/cpython_abi.h:17-42 | the fast path takes exactly the ints of at most one digit |
| IntDecode.TooManyDigits | intj/python_intf/cpython_abi.h:60-61 | more than three digits is more than 64 bits |
| IntDecode.EncodeRoundTrip | intj/python_intf/cpython_abi.h:17-51 | every int has a normalized object in both layouts and reads back as itself |
| CompileCache.RecordsAgree | intj/compiler.py:317-360 | over any misses nested in any way: two records of one identity and device have one kernel, and one key blob never yields records of two identities |
| CompileCache.CompileKeeps | intj/compiler.py:273-287 | a compile, whatever nests in its load, returns the stored kernel and replaces none |
| CompileCache.MissKeeps | intj/compiler.py:317-360 | a miss, returned or failed, keeps everything stored and seen |
| CompileCache.MissReturnsStored | intj/compiler.py:352-360 | a miss that returns, returns the kernel stored under its identity, and its key stands for that identity |
| CompileCache.MissReturnsExactly | intj/compiler.py:317-360 | a miss returns if and only if its key's identity is its own, it counts, and its kernel was stored before or its load neither raises nor is refused; then it returns the kernel stored first and makes one record of it; a hit changes nothing else |
| CompileCache.MissStores | intj/compiler.py:278-287 | and what it returns is stored for every later miss |
| CompileCache.NestedLoadsTwice | intj/compiler.py:273-287 | a miss nested in the load of its own identity loads it twice; the inner kernel stays |
| CompileCache.RetriedLoadsTwice | intj/compiler.py:278-287 | a load that raises stores nothing, so the next miss of that identity loads it again |
| CompileCache.LoadedOnceExactly | intj/compiler.py:273-287 | over any misses nested in any way, an identity is loaded at most once on a device if and only if no miss of it is admitted while a load of it runs, and none after a load of it that stored nothing |
| CompileCache.PlainLoadsOnce | intj/compiler.py:273-287 | so misses of an identity that never nest in each other and whose loads do not fail load it at most once |
| CompileCache.EventsCount | intj/compiler.py:273-360 | from any state: a load starts exactly where an admitted miss finds nothing stored, and a second exactly under that condition |
| CompileCache.KernelCompiler.CompileMiss | intj/compiler.py:317-360 | the method's new `seen`, cache, loads and records |
| CompileCache.KernelCompiler.Compile | intj/compiler.py:273-287 | the check, the load and the setdefault under the re-entrant lock |

## Left out

- KernelMap.Map.Put: a put that has to grow needs the doubled capacity to fit 32 bits, because the C does not check it; a key already in the map is excluded as in the source.
- SameKey.SameKeySameInput: its parameters are those with a value at level 0; tuned ones have none, and are left to `TunedValues.KeysDetermine`.
- SpecKey.NeverCoarser: tuned parameters have no value at level 0 and are left to `TunedValues.KeysDetermine`; `exact_key` fields are in the layout but their two values are not needed for the compiler input.
- SameKey.BakingIsPassing: which floats pack into an fp32 without overflow is a parameter, because floats are bit patterns here.
- HeuristicSim.LoweringSimulates: literals emitted into C must fit int64; `HeuristicLevels.ValidExactly` is the exact condition, and outside it C has no defined meaning to compare with.
- TunedValues.KeysDetermine: a choice is a function of the descriptors and the keys' values, so a re-tune of one key to another choice is not modelled.
- ObjectIds.NextInv: a lookup and an insert in the object table are one step each, as the launcher's lock makes them.
- PyObjects.DecrefCounted: an object freed holds no references of its own here, so chains of finalizers are not modelled.
- Parsing: the source location of lambdas, code-object comparison and linecache (`intj/heuristic.py:121-177`); expressions start parsed.
- Error wording and exception chaining: only the kind of failure, or that there is one.
- The text of the C: lines are a datatype, so indentation, the literal spelling of names and the C compiler are not modelled.
- Torch struct reads, dtype probing, ABI tables and the C++ build: what a tensor read answers is a parameter.
- Triton's own code: native specialization, the autotuner and `parse_attr` enter by what they promise.
- Weak memory ordering, the GIL and the collector's scheduling: steps are sequentially consistent and any interleaving is allowed.
- Values passed through `__index__` or `__float__` to parameters with a Triton type annotation: an argument is of an exact scalar type.
- The multi-word hash: nothing is promised of it but to be a function of the key, which is all the map needs.
- `put`'s backends other than the map of `intj/runtime/intj_map.h`, the map's `free`, and the release and clear of the object table.
- The weak-valued cache of `return_compiled` launchers, `candidate` and `override_compile`; live-knob checks and `_refuse_unlaunchable` are one failure of the load.
- The refusals of `tuning_render` besides its guard: a grid that reads a computed key, and a config value that is no C scalar.
- `call_layout`, `_merge_field`, `_specialization_modes` and the refusals of contradictory annotations: a merged annotation is where the model starts.
- Building, linking, downloading, driver calls, launch packing of argument values and the grid object's own dimensions.
