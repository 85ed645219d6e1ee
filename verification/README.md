# A verified model of an actor virtual machine

A Dafny model of the hard core of a Smalltalk virtual machine with an actor runtime written in C:
the per-actor garbage collector, deep copying between heaps, the image writer and loader, the
bytecode compiler and interpreter, the lock-free deque and mailbox, the suspend/wake handshake and
reference count of actors, the future table, the actor registry, futures and supervisors.

`dafny verify dfyconfig.toml` checks everything.

| file | models |
|---|---|
| Common.dfy, ObjectGraph.dfy | tagged words, object layout, paths, reachability, isomorphism of object graphs |
| Collector.dfy | src/gc/gc.c |
| DeepCopy.dfy | src/actor/deep_copy.c, `route_reply` |
| Image.dfy, ImageBounds.dfy | src/image/image.c; the loader on malformed images |
| Bytecode.dfy | instruction encoding and the effect of one instruction |
| Source.dfy | the syntax tree and what it means |
| Codegen.dfy, Emitter.dfy | src/compiler/codegen.c: the emitted code as a function of the tree, and the pass that appends and patches |
| CodegenProof.dfy, CodegenCorrect.dfy | the emitted code does what the tree means |
| Assignment.dfy | definite assignment of block temporaries |
| Witnesses.dfy | methods that are accepted and miscompiled |
| Interpreter.dfy | the dispatch loop over a chain of frames, quotas, tail calls |
| EndToEnd.dfy | compiled methods as the scheduler runs them |
| Threads.dfy, Deque.dfy, Mailbox.dfy, Scheduling.dfy, Future.dfy | protocols, one step per atomic access |
| Probing.dfy, FutureTable.dfy, Registry.dfy | the two open-addressing tables |
| Supervisor.dfy | restart intensity |

Code that changes things in place is modelled by classes and loops proved against functions on
values. Concurrent code is modelled as a state machine with one step for each atomic operation, any
number of threads and any schedule; memory is sequentially consistent. Clocks, addresses returned
by the allocator, replies of other objects and results of method lookup are parameters.

## What the code does not promise

Where a property does not hold of the code, the model keeps the code, shows an input for which it
fails, and proves when it holds.

- The answer -1. The dispatch loop reports preemption by the word in which all bits are set, and that
  is the tagged integer -1 (`SentinelIsMinusOne`), although src/vm/interpreter.c:70-73 says no integer
  has it. A method that answers -1 to the scheduler is taken for preempted and its reply is lost
  (`MinusOneWitness`, `MinusOneIsLost`). `PreemptionIsInvisible`: a message is answered with a value
  exactly if the uninterrupted loop finishes with it and it is not -1.
- Temporaries of inlined blocks share slots and are not reset. `BlockTempsAreNotReset`:
  `true ifTrue: [|a| a := 1]. true ifTrue: [|b| ^b]` answers 1. For methods that assign such a temporary
  before reading it, which `DefinitelyAssigned` decides from the tree, the code does what the source
  means with temporaries nil on entry (`MethodRuns`, `HaltsExactly`).
- Names. `FindsInnermostIff`: name lookup finds the innermost declaration exactly if the name is declared
  once in scope, the counters of `timesRepeat:` included. `InnerNamesAreLost` and `CountersAreNotHidden`
  are methods that go wrong: an inner `x` overwrites the outer one, and a block variable `__tr_i` inside
  `timesRepeat:` reads the counter.
- Jumps. A forward jump gets one operand byte whatever its distance, and the distance of a backward
  jump is computed for a two-byte instruction although a wide one takes four. `ForwardLands` and
  `BackLands`: both land where they should exactly if the distance is at most 255. The compiler model
  reports an error exactly for undeclared names and for closures (`EmitMethod`), the latter being a
  limit of the model and not of the C compiler, so it accepts longer ones: `LongJumpsAreLost` is a
  family of methods `false ifTrue: [...]` that run their block.
- A terminated actor. src/scheduler/scheduler.c:164-172 means it not to be queued again, but the stores
  after that check are unconditional. `RunsAgainIff`: from a state with the actor terminated some
  schedule makes it run again exactly if a worker past the check is about to make it ready, or to
  suspend it while a message, a sender or another worker is left to wake it. `TerminatedRunsAgain` is
  such a schedule.
- Malformed images. The loader checks neither repeated object ids nor the slot of a relocation.
  `LoadGuarded`: it leaves an object exactly if a repeated id has an earlier record larger than its
  last, or the first relocation that is not accepted names a slot beyond its object. `PastThePayload`
  and `RepeatedId` are images that no check refuses.
- A future remembers one waiter. `SleepersFoundIff`: in every schedule every sleeping waiter is found
  exactly if at most one actor waits; `FirstWaiterOverwritten` is the schedule that fails.
- Supervisors. A stopped child has the id 0, so a failure notification carrying id 0 matches it.
  `StoppedRestartsIff` says when such a notification restarts it; ids of actors start at 2
  (src/vm/vm.c:118).
- The intensity limit of `max` restarts in a window allows up to `2 * max - 1` in some interval of the
  window's length. `IntensityBound` and `BoundIsReached`: never more, and that many do occur.
- src/actor/deep_copy.c:170 masks the literal count of a compiled method differently from src/gc/gc.c.
  `ScansAgreeIff` says when the two agree; each model follows its own file.

## Model

| member | source | states |
|---|---|---|
| ObjectGraph.PackedTotal | src/vm/heap.c:47-64 | objects that lie apart in a region occupy no more than its size |
| ObjectGraph.ReachableInClosed | src/gc/gc.c:304-311 | a set that holds the roots and is closed under references holds everything reachable |
| ObjectGraph.AccessPathsAgree | src/gc/gc.c:382-451 | in isomorphic graphs every access path from related words leads to related words |
| ObjectGraph.IdentityPreserved | src/gc/gc.c:382-451 | two access paths meet in the same object before exactly if they do after: sharing and cycles survive |
| Collector.RoomForOne | src/gc/gc.c:264-299 | the to-space overflow branch is unreachable |
| Collector.EvacuatedInv | src/gc/gc.c:264-300 | copying an object and leaving its forwarding address, in the payload or in the side table, keeps the collector's invariant |
| Collector.GcState.Evacuate | src/gc/gc.c:264-300 | one object moves to the bump pointer; whole new state |
| Collector.GcState.Copy | src/gc/gc.c:233-300 | any traceable word becomes its forwarded word; nothing copied moves again; immediates, immutable and external words stay |
| Collector.GcState.ScanObject | src/gc/gc.c:304-311 | all reference slots of one copy are redirected, raw words are kept |
| Collector.GcState.ScanRoots | src/gc/gc.c:316-378 | every root slot is redirected in place |
| Collector.GcState.Trace | src/gc/gc.c:413-426 | the scan terminates when it meets the bump pointer, every copy scanned and every root redirected |
| Collector.Finished | src/gc/gc.c:382-451 | after the scan to-space holds one copy of each live object and nothing else, isomorphic to the live graph, packed, with the roots forwarded |
| Collector.NextCycleValid | src/gc/gc.c:428-438 | a collected heap meets everything the next collection assumes |
| Collector.Actor.Collect | src/gc/gc.c:382-451 | with a region the heap and roots become the collected ones and the statistics count it; without one nothing changes and -1 is returned |
| DeepCopy.AllocatedInv | src/actor/deep_copy.c:180-206 | registering a copy before its slots are followed keeps the copy invariant, cycles included |
| DeepCopy.Copier.CopyOop | src/actor/deep_copy.c:229-254 | immediates, null and immutable words are shared, others map to their one copy; failure only if the graph is too big |
| DeepCopy.Copier.Allocate | src/actor/deep_copy.c:180-206 | a fresh object is bump-allocated, or the whole live graph does not fit |
| DeepCopy.Copier.CopyObject | src/actor/deep_copy.c:180-227 | the copy of one object is finished with everything below it; terminates on cyclic graphs |
| DeepCopy.Copier.FillSlots | src/actor/deep_copy.c:208-218 | references are copied slot by slot through the recursion |
| DeepCopy.Done | src/actor/deep_copy.c:180-287 | the copied graph is isomorphic, every live mutable object has one fresh copy, and what existed is unchanged |
| DeepCopy.DeepCopy | src/actor/deep_copy.c:256-287 | returns 0 exactly if the live graph exceeds the room, otherwise the isomorphic copy; the source is untouched either way |
| DeepCopy.Estimator.Estimate | src/actor/deep_copy.c:357-384 | adds the bytes of exactly the objects first visited by this call |
| DeepCopy.EstimateBytes | src/actor/deep_copy.c:386-400 | the estimate is the bytes of the live mutable objects, each once |
| DeepCopy.EstimateThenCopy | src/actor/deep_copy.c:180-400 | the copy fails exactly if the estimate exceeds the room, and otherwise uses exactly the estimated bytes |
| DeepCopy.RouteReply | src/actor/actor.c:559-617 | a mutable reply is copied into a heap of the capacity computed from the estimate; the copy always fits and uses exactly the estimated bytes |
| DeepCopy.ScansAgreeIff | src/actor/deep_copy.c:148-178 | when the copier and the collector scan the same slots of an object |
| Image.SnapRoundTrip | src/image/image.c:274-285 | an id survives its encoding as a tagged word |
| Image.WalkGraph | src/image/image.c:362-400 | ids are dense and unique and number exactly what is reachable from the root |
| Image.BuildRelocs | src/image/image.c:444-461 | the relocation table lists exactly the heap reference slots, each once, in order |
| Image.BuildRecord | src/image/image.c:526-561 | a record holds the header, encoded references and raw words of its object |
| Image.Save | src/image/image.c:299-577 | the image is the reachable graph: records, ids and relocations |
| Image.AllocateAll | src/image/image.c:666-701 | every record gets an object; an id out of range is refused |
| Image.Relocate | src/image/image.c:728-768 | patches each listed slot once; refuses exactly when some relocation is not good |
| Image.Load | src/image/image.c:666-768 | an image loads exactly if ids are in range and every relocation names a tagged id of an existing object, once |
| Image.SavedRelocsGood | src/image/image.c:444-461 | the writer only produces relocations that the loader accepts |
| Image.TripRestores | src/image/image.c:299-768 | loading a saved image gives an isomorphic graph with headers, immediates, zeros and raw words unchanged and each object in its space |
| Image.RoundTrip | src/image/image.c:299-768 | saving and loading always succeeds given room, and the root is object 0 |
| ImageBounds.ReadIds | src/image/image.c:671-700 | ids are in range exactly if it succeeds, and each then stands for the last record that has it |
| ImageBounds.Fill | src/image/image.c:703-725 | payload writes stay inside exactly if no record is larger than the last one with its id; then each object has its own payload |
| ImageBounds.RelocateGuarded | src/image/image.c:743-767 | relocation leaves an object exactly if the first entry that is not accepted names a slot beyond it; finishes exactly if all are accepted, each slot once |
| ImageBounds.LoadGuarded | src/image/image.c:666-768 | when exactly passes 3 to 5 leave an object, and when exactly they finish, for every image |
| ImageBounds.WellShapedIff | src/image/image.c:666-768 | with distinct ids, what Load assumes of an image is that no relocation strays |
| ImageBounds.PastThePayload | src/image/image.c:748-756 | an image no check refuses whose relocation names a slot beyond its object |
| ImageBounds.RepeatedId | src/image/image.c:682-700 | an image no check refuses whose payload runs over a smaller object |
| Codegen.LitIndex | src/compiler/codegen.c:102-117 | the first index of an equal literal, or the next free one |
| CodegenProof.SimNode | src/compiler/codegen.c:1099-1265 | from any state that agrees with the variables, the code of a node ends as its evaluation says, unless that reads a variable without a value: value pushed exactly if wanted, stack otherwise unchanged, same variables and history; or answered, aborted, still running |
| CodegenProof.SimStmts | src/compiler/codegen.c:1267-1298 | the same for statement lists |
| CodegenProof.SimBlock | src/compiler/codegen.c:514-537 | the same for inlined blocks, whose temporaries come and go |
| CodegenProof.SimIf | src/compiler/codegen.c:541-587 | the same for one-armed conditionals |
| CodegenProof.SimIfElse | src/compiler/codegen.c:589-633 | the same for two-armed conditionals |
| CodegenProof.SimLoop | src/compiler/codegen.c:635-722 | the same for while loops; each turn costs a step, so loops without end run without end |
| CodegenProof.SimLogic | src/compiler/codegen.c:724-772 | the same for and:/or: |
| CodegenProof.SimTimes | src/compiler/codegen.c:774-825 | the same for timesRepeat:, whose hidden counters no body disturbs |
| CodegenProof.SimSend | src/compiler/codegen.c:925-962 | the same for sends and super sends |
| CodegenProof.SimArgs | src/compiler/codegen.c:949-952 | arguments pile up on the stack in order |
| CodegenProof.SimAssign | src/compiler/codegen.c:881-923 | the same for assignments to temporaries, instance variables and globals |
| CodegenProof.SimReturn | src/compiler/codegen.c:1067-1097 | the same for returns |
| CodegenCorrect.MethodRuns | src/compiler/codegen.c:1302-1416 | for methods that definitely assign their block temporaries, the compiled code answers what the source means after the same sends and stores in the same order, aborts on the same conditions, and runs on if the source does |
| CodegenCorrect.HaltsExactly | src/compiler/codegen.c:1302-1416 | it halts with an answer exactly if the source does, and aborts exactly if the source tests a non-boolean |
| CodegenCorrect.EntryDoesNotMatter | src/compiler/codegen.c:521-536 | with definite assignment it does not matter what block temporaries hold on entry, and no read is without a value |
| Assignment.NodeSound | src/compiler/codegen.c:1099-1265 | a node that passes the check reads no variable without a value and assigns what it is said to |
| Assignment.NodeRefines | src/compiler/codegen.c:521-536 | what evaluation without nil temporaries claims, evaluation with them confirms |
| CodegenCorrect.ForwardLands | src/compiler/codegen.c:68-80 | a patched forward jump lands on its target exactly if it is at most 255 bytes away |
| CodegenCorrect.BackLands | src/compiler/codegen.c:653-656 | the jump closing a loop lands on its start exactly if the distance needs no wide operand |
| Witnesses.BlockTempsAreNotReset | src/compiler/codegen.c:521-536 | a method that is nil by its meaning and answers 1 |
| Witnesses.FindsInnermostIff | src/compiler/codegen.c:413-418 | name lookup finds the innermost declaration exactly if there is only one |
| Witnesses.InnerNamesAreLost | src/compiler/codegen.c:413-418 | a method whose inner variable overwrites the outer one |
| Witnesses.CountersAreNotHidden | src/compiler/codegen.c:785-790 | a method whose block variable is the counter of timesRepeat: |
| Witnesses.LostJump | src/compiler/codegen.c:68-80 | a conditional whose jump is a multiple of 256 runs its block although the condition is false |
| Witnesses.LongJumpsAreLost | src/compiler/codegen.c:541-587 | for every multiple n of 128 a method that is accepted, means no sends and makes at least n |
| Emitter.Patched | src/compiler/codegen.c:68-80 | patching a placeholder gives the jump over what follows; the test for a wide jump never holds |
| Emitter.Generator.AddLiteral | src/compiler/codegen.c:102-117 | literals are deduplicated |
| Emitter.Generator.EmitName | src/compiler/codegen.c:848-879 | name lookup order, and an error exactly for undeclared names |
| Emitter.Generator.EmitIf | src/compiler/codegen.c:541-587 | the patched code of a conditional |
| Emitter.Generator.EmitLoop | src/compiler/codegen.c:635-722 | the patched code of a loop with its backward jump |
| Emitter.Generator.EmitTimes | src/compiler/codegen.c:774-825 | the code of timesRepeat:, its hidden temporaries removed again |
| Emitter.Generator.EmitBlock | src/compiler/codegen.c:514-537 | block temporaries are pushed on the scope and popped again |
| Emitter.Generator.EmitStatements | src/compiler/codegen.c:1267-1298 | values of statements before the last are dropped; nothing follows a return |
| Emitter.Generator.EmitNode | src/compiler/codegen.c:1099-1265 | appends exactly the specified bytes, literals and peak of temporaries and leaves the scope as it was; errors stick and occur exactly for undeclared names and closures |
| Emitter.Generator.EmitMethod | src/compiler/codegen.c:1302-1412 | succeeds exactly if every name is declared and no closure occurs; the one-pass generator then produces the code and literals, owner class last, that MethodRuns is about, and header fields truncated to eight bits |
| Interpreter.Forward | src/vm/interpreter.c:105-570 | between two reductions a turn moves forward in its method or leaves it |
| Interpreter.Actor.RunQuantum | src/vm/interpreter.c:99-570 | a quantum terminates on every bytecode and saves the state that the next one resumes |
| Interpreter.Actor.Resume | src/vm/interpreter.c:930-1033 | the caller tells preemption from a result by comparing one word with the sentinel |
| Interpreter.SentinelIsMinusOne | src/vm/interpreter.c:70-73 | the sentinel is the word of the integer -1 and of no other value |
| Interpreter.QuantumRuns | src/vm/interpreter.c:235-245 | a quantum is a number of turns of the uninterrupted loop, at least 999 if it is preempted |
| Interpreter.QuantaRun | src/vm/interpreter.c:930-1033 | chained quanta are a run of the uninterrupted loop, each making progress |
| Interpreter.QuantaComplete | src/vm/interpreter.c:235-245 | before the comparison, chained quanta end exactly as the uninterrupted loop does |
| Interpreter.PreemptionIsInvisible | src/vm/interpreter.c:930-1033 | a message is answered with a value and history exactly if the uninterrupted loop finishes with them and the value is not -1; it aborts exactly if the loop does |
| Interpreter.MinusOneIsLost | src/vm/interpreter.c:979-981 | a run that finishes with -1 loses its reply |
| Interpreter.MinusOneWitness | src/vm/interpreter.c:979-981 | the method `^ -1` |
| Interpreter.TailCallsAreInvisible | src/vm/interpreter.c:420-454 | reusing frames of finished callers changes neither values nor histories nor termination |
| EndToEnd.CalleeReturns | src/vm/interpreter.c:517-527 | a callee that finishes by itself returns its value to the frames below it |
| EndToEnd.SameAnswers | src/vm/interpreter.c:235-470 | answering sends at once and running their methods, which send and store in turn, give the same answers and histories |
| EndToEnd.ServedAsMeant | src/vm/interpreter.c:930-1033 | a message that runs a compiled method in quanta is answered as the source means after the history it means, effects of callees included, except with -1 |
| EndToEnd.TailAnswers | src/vm/interpreter.c:420-454 | a world in which a method sends another in tail position meets the premise of these results |
| EndToEnd.TailInstance | src/vm/interpreter.c:420-454 | there `^self foo` is served with the value and the history of both sends, and its frames are reused |
| Deque.StepInv | src/scheduler/deque.c:15-70 | every atomic step of the owner and of any thief keeps the deque invariant |
| Deque.EachPushReturnedAtMostOnce | src/scheduler/deque.c:15-70 | in every schedule what was pushed is what was returned, what is inside and at most one element claimed by the owner |
| Deque.StepRefines | src/scheduler/deque.c:15-70 | every step is a step of a plain double-ended queue; the owner reports full and empty only when they are true |
| Deque.ThiefEmpty | src/scheduler/deque.c:53-70 | a thief reports empty only if it is, or the owner is taking the last element, or another thread took the one it was after |
| Deque.StaleThiefFails | src/scheduler/deque.c:53-70 | once the slot a thief aims at is written again, with another actor or the same, that attempt never succeeds, in every schedule |
| Deque.PopObtains | src/scheduler/deque.c:25-51 | an undisturbed pop obtains the newest element |
| Deque.StealObtains | src/scheduler/deque.c:53-70 | an undisturbed steal obtains the oldest element exactly if the owner is not taking it |
| Deque.EveryPushObtainable | src/scheduler/deque.c:15-70 | from every reachable state some schedule returns everything that was pushed |
| Mailbox.StepInv | src/actor/mailbox.c:59-113 | every step of any producer and the consumer keeps list and counter in order |
| Mailbox.DeliveredInOrder | src/actor/mailbox.c:59-113 | deliveries are a prefix of the admissions in tail-exchange order |
| Mailbox.CapacityHolds | src/actor/mailbox.c:64-107 | never more than capacity messages admitted and undelivered, and what exactly the counter counts |
| Mailbox.EmptyMeansNoneOrUnlinked | src/actor/mailbox.c:92-113 | empty is reported only if nothing is pending or the next message is not linked yet |
| Mailbox.LinkingMakesVisible | src/actor/mailbox.c:82-88 | that link makes the message visible |
| Mailbox.NoDanglingAccess | src/actor/mailbox.c:59-113 | no step touches a freed node and no decrement meets zero |
| Mailbox.EveryMessageDeliverable | src/actor/mailbox.c:59-113 | from every reachable state some schedule delivers every admitted message, producers only finishing their links |
| Scheduling.StepInv | src/scheduler/scheduler.c:141-216 | every step of senders, workers and termination keeps ownership, attention and the reference count |
| Scheduling.OneWorkerOneEntry | src/scheduler/scheduler.c:141-216 | at most one worker runs the actor and it has at most one queue entry |
| Scheduling.NoMessageStranded | src/actor/actor.c:264-289 | a suspended actor with messages has a sender yet to wake it or a worker yet to re-check |
| Scheduling.ReadyIsQueued | src/scheduler/scheduler.c:51-63 | a ready actor is queued or about to be |
| Scheduling.FreedExactlyWhenUnheld | src/actor/actor.c:129-172 | the count is exact: freed at most once, and exactly when nobody holds the actor |
| Scheduling.RunsAgainIff | src/scheduler/scheduler.c:164-216 | when exactly some schedule makes a terminated actor run again |
| Scheduling.TerminatedRunsAgain | src/scheduler/scheduler.c:164-216 | a schedule of one sender and one worker in which it does |
| Probing.NextIsMasked | src/actor/future_table.c:26-28 | masking with a power of two steps around the table |
| Probing.NotFound | src/actor/future_table.c:140-151 | an empty slot on the probe path means the id is absent |
| Probing.Inserted | src/actor/future_table.c:121-127 | filling a free slot on the probe path adds one entry and keeps every probe path |
| Probing.GapStep | src/actor/future_table.c:173-188 | re-inserting one entry of a cluster keeps the rest findable, across the wrap-around |
| Probing.Rehash | src/actor/future_table.c:31-51 | the larger table has the same entries and no tombstones |
| FutureTable.Futures.New | src/actor/future_table.c:97-132 | a fresh id is added to the map |
| FutureTable.Futures.Lookup | src/actor/future_table.c:134-155 | finds an entry exactly if the map has it |
| FutureTable.Futures.Remove | src/actor/future_table.c:157-193 | removes exactly that id from the map |
| FutureTable.Futures.Reinsert | src/actor/future_table.c:173-188 | re-insertion of the cluster terminates and keeps the map |
| Registry.Actors.Register | src/actor/registry.c:113-161 | adds or replaces an entry, ignores reserved ids, counts live entries |
| Registry.Actors.Probe | src/actor/registry.c:130-158 | finds the entry or the empty slot that ends the search, and the first tombstone |
| Registry.Actors.Unregister | src/actor/registry.c:163-186 | removes the entry and leaves a tombstone |
| Registry.Actors.Lookup | src/actor/registry.c:188-217 | answers what the map has |
| Registry.Actors.Grow | src/actor/registry.c:43-78 | growth drops tombstones and leaves an empty slot beyond the next insertion |
| Future.StepInv | src/actor/future.c:81-150 | every access of racers and waiters keeps the protocol's invariant |
| Future.ExactlyOneWins | src/actor/future.c:81-150 | no two racers win, and once all are done one has |
| Future.ReadersSeeTheWinner | src/actor/future.c:34-57 | whoever reads a settled future reads the winner's complete fields |
| Future.LosersFreeOnce | src/actor/future.c:111-120 | each loser's buffer and heap are freed once, the winner's not |
| Future.NoLostWakeup | src/vm/primitive_table.c:1298-1340 | never do both the winner read waiter id 0 and a waiter's re-check miss the end |
| Future.SleepersFoundIff | src/vm/primitive_table.c:1298-1340 | in every schedule the winner finds every sleeping waiter exactly if at most one actor waits |
| Future.FirstWaiterOverwritten | src/vm/primitive_table.c:1316-1318 | with two waiters or more, a schedule in which two sleep and only the second is found |
| Supervisor.Supervisor.CheckIntensity | src/actor/supervisor.c:233-292 | permits a restart exactly if the current or a fresh window has room; otherwise stops all children and tells the parent if there is one, or starts over in the root |
| Supervisor.Supervisor.HandleFailure | src/actor/supervisor.c:294-376 | whole new state for each strategy, unknown children ignored, escalation without a parent dropped |
| Supervisor.IntensityBound | src/actor/supervisor.c:233-292 | no interval as long as the window sees more than `2 * max - 1` permitted restarts |
| Supervisor.BoundIsReached | src/actor/supervisor.c:233-292 | for every limit some run reaches that number |
| Supervisor.ExceedingStopsAll | src/actor/supervisor.c:198-210 | exceeding the limit leaves no child with an actor |
| Supervisor.StoppedRestartsIff | src/actor/supervisor.c:104-116 | when exactly a notification restarts a stopped child |
| Supervisor.StoppedForGood | src/actor/supervisor.c:294-376 | after that no notification with an actor's id restarts a child that existed |

## Left out

- Weak memory ordering: steps are sequentially consistent and fences do nothing.
- Failing calls of malloc, except where the collector, the copier and the loader report them.
- Wrap-around of 32-bit deque indices, actor ids and future ids.
- The hash tables of the collector, the copier and the image writer are maps; the open-addressing argument is made for the future table and the registry.
- `sta_heap_grow`, `sta_deep_copy_gc` and the estimate over several roots.
- Emitter.Generator.EmitNode: leaves out cascades and real block closures, which it flags as an error.
- CodegenProof.SimNode: makes no claim where a variable without a value is read; `DefinitelyAssigned` excludes that in MethodRuns.
- CodegenProof.SimStmts: as CodegenProof.SimNode.
- CodegenProof.SimBlock: as CodegenProof.SimNode.
- Interpreter.Forward: closures, captured contexts, non-local return, OP_PRIMITIVE and message opcodes beyond OP_SEND and OP_SEND_SUPER are fatal in the model.
- Interpreter.Actor.RunQuantum: exceptions that unwind out of the loop are not modelled.
- EndToEnd.SameAnswers: assumes that every send is answered, by a primitive or by a method that returns; callees that abort or run for ever are not covered.
- EndToEnd.ServedAsMeant: as EndToEnd.SameAnswers.
- What the scheduler does with an actor whose reply is lost: its saved frame is null or stale.
- Literal indices and temporaries above 65535, which the C code truncates, in the emitter; `Compilable` excludes them.
- Primitives that suspend, stack overflow and `doesNotUnderstand:` in the interpreter: lookup answers a value, a method or nothing.
- Image.AllocateAll: assumes that no object id is repeated, in which case the C code is undefined.
- Image.Relocate: assumes that relocations stay inside their payloads, without which the C code is undefined.
- Image.Load: assumes that object ids are not repeated and that relocations stay inside their payloads, which the C loader does not check; ImageBounds.dfy is about the others. File header, class names, symbol names and the rebuilding of runtime tables are not modelled.
- DeepCopy.RouteReply: leaves out the reply buffer and the resolution of the future, which Future.dfy covers on its own.
- Scheduling: the root actor, the scheduler's parking and the CAS of `prim_future_wait` are not part of the model; one actor is followed at a time.
- Future: reference counts of futures are not modelled.
- Supervisor: creation and teardown of actors is reduced to their ids; the second clock reading of the root supervisor is the same as the first.
- Parser, method dictionaries, symbol and class tables, handles, bootstrap and file I/O: tables and plumbing with easier versions of the same arguments.
