# Verified model of the porcupine checker, the MapReduce engine and the lab test rig

This project models the finished components of the 6.5840 lab repository in Dafny and proves what
they are for. The main results hold for every input of the operation they are about, or for every
interleaving and every reachable state of the machine they are about; where the code falls short of what
it is for, the exact condition is given below.

**Porcupine, the linearizability checker.** `Histories` fixes what is decided: a history of timed
operations, a sequential model, and whether some order of all operations is legal from the initial
state and never puts an operation before one that had returned before it was called
(`Linearizable`). `Entries` is the way from operations or events to time-ordered entries.
`Checker.CheckSingle` is the search itself, with its doubly linked list edited in place
(`LinkedEntries`, `Weaving`), its in-place bitset (`Bitsets`), its hash-bucketed cache (`Caches`)
and its explicit stack; `Search` holds the invariant of the search as a transition system. The
contract of `CheckSingle` is both directions of the decision, termination, and that every
`longest[i]` is as long as any legal partial linearization with operation `i`. `ParallelChecker` is
the fan-out with kill and timeout as a state machine, `KvModel` the split by key with the locality
theorem, `CheckHistories` the whole of `checkOperations` and `checkEvents` for any partition function
that keeps its contract, and `Visualization` the replay of what the checker collected.

**MapReduce.** `Tasks` is the coordinator's state as a value and what each remote call makes of it,
`Coordinators` the object whose methods update it in place, `CoordinatorRuns` and
`CoordinatorProgress` are about whole runs. `KeyValues`, `Outputs`, `Workers` and `Jobs` are the data
side: grouping loops, bags of lines, file names, mapper and reducer, the sequential program, and what
intermediate and output files should hold. `WorkerLoops` runs the loops of any number of worker
processes, which may share a name, on the coordinator. `MapReduce` adds the files, created and then
written piece by piece, each writer at its own offset, in every interleaving and with crashes at any
point. `Completion` proves that every fair run without crashes comes to an end at which all workers have
quit and the files hold the lines of the sequential program, and when the files may be read earlier.
`MrApps` shows that word count and the indexer meet the hypothesis, and `WordCount` what a finished word
count has written.

**Simulated network and restarts.** `Networks` has the network's tables, the persisters and what the
test configuration saves of them. `CrashRestart` interleaves requests, saves by instances old and new,
and any number of `StartServer` and `ShutdownServer` calls, which take turns only where the source holds
its lock.

**labgob.** `Labgob` is the memoised walk over a possibly cyclic graph of types.

`Sorting` and `Strings` say what is used of the Go library: a sort returns some permutation without
inversions, and nothing about elements that compare equal.

Properties that turned out to need a condition:

- With no partition and no timer `checkParallel` never returns. The key/value model makes no
  partition of the empty history, so `CheckOperations` on an empty history hangs, although the empty
  history is linearizable. `ParallelChecker.Returns` and `CheckHistories.StoreReturns` give the exact
  condition.
- A worker registered under the empty id is given tasks and cannot complete them, since updates with
  an empty worker id are refused. `CoordinatorProgress.FinishReachable` gives the exact condition for
  the finished phase to be reachable, `CoordinatorProgress.NamelessWorkerStrands` a run that loses it.
- When the coordinator has finished, the first output file may be empty or half written. A worker that
  asks while the reduce phase has no task to give runs the reducer of partition 0 all the same, which
  empties `mr-out-0` before it fills it again, and the last report can arrive in between.
  `MapReduce.QuietFile` says that a file is right whenever nobody is writing it, however many reducers
  have written it, even at the same time. `MapReduce.FinishedOutput` says that after the end no other
  file is being written, and `MapReduce.QuitOutput` that all files are right once the workers have quit.
  `Completion.RightAtOnce` gives the exact condition for all files to be right in every run as soon as
  the coordinator has finished: there is at most one worker, or nothing hashes to the first partition.
- Restarting a server without shutting it down first loses an answered update. So does shutting it down
  while it is being started: `StartServer` gives up the lock before it adds the server. So would copying
  the persister before deleting the server. `CrashRestart.RulesAreNeeded` says that a tester that only
  chooses which of these three to keep clear of must keep clear of all three. The weakest rule is
  finer: no persister may be replaced while an instance serves its name or has been made and not yet
  added. `CrashRestart.QuietIsWeakest` says that a run keeps to it exactly when at no point of the run an
  answered update could still be lost.
- The key/value model splits operations by key but not events, and its state is the value of one key.
  `checkEvents` therefore judges a put to one key and a get of another as if they were on the same key.
  `CheckHistories.EventsNeedOneKey` says that it is right about all histories over a set of keys exactly
  when the set has no two keys.
- `src/main/test-mr.sh` requires workers to exit when the job is finished and not before. They do exit
  then (`WorkerLoops.FinishedQuits`), but a worker that asks while the map phase has no task to give
  leaves too (`WorkerLoops.QuitsWhen`). This can happen exactly when there are at least two workers
  (`WorkerLoops.QuitsEarlyWhen`). The job finishes all the same (`Completion.JobCompletes`), since
  whoever completes the last map task asks again.

Where code and comments disagree: `porcupine.go` says that a timeout makes a false positive possible.
In the code a timeout gives Unknown, or Illegal when a part was found illegal before; Ok and Illegal
are always right, and Unknown comes only of a timer that fired (`ParallelChecker.Safety`).

Parameters of the model: `kill` is a function from loop turns to what the flag reads; the map and reduce
functions, the key hash, the letter and upper-case predicates and the descriptions shown by the
visualizer are function parameters; whose turn it is among the workers is any schedule; which updates a
saved state holds is a function of its bytes. The key/value history is checked against a map from keys
to strings, `KvModel.Store`, which is not in the source: it is what the split by key stands for.

## Model

| member | source | states |
|---|---|---|
| `Checker.CheckSingle` | src/porcupine/checker.go:179-253 | answer and records are those of the one run of the search up to the first turn that reads the kill flag up; true only if the history is linearizable; if no turn reads the flag up, true exactly when it is; if the first turn does, false with nothing recorded; the loop ends for every well-formed history; every recorded sequence is a legal partial linearization with its operation, and with `computePartial` and no kill it is as long as any |
| `Checker.Explore` | src/porcupine/checker.go:190-243 | the loop makes the turns of a run of the search's transition system while the flag is down and ends as that run does, by unvisited stacks, stack height and entries ahead |
| `Checker.Conclude` | src/porcupine/checker.go:244-252 | when the list is empty the ids on the stack are a linearization and the longest for every operation |
| `Checker.RecordDeadEnd` | src/porcupine/checker.go:218-234 | a dead end replaces exactly the entries of `longest` for operations on the stack that had none or a shorter one |
| `Checker.TakeCall` | src/porcupine/checker.go:201-207 | taking a call keeps list, bitset, cache and stack tied to the same set of taken operations |
| `Checker.BackOut` | src/porcupine/checker.go:235-241 | backing out restores state, bitset and list to what they were before the call was taken |
| `Checker.Examine` | src/porcupine/checker.go:194-200 | a call is taken exactly when the model accepts it and its set of operations with its state is new |
| `Checker.CompleteIsLongest` | src/porcupine/checker.go:244-251 | a complete linearization is as long as any partial one, for every operation |
| `Search.MoveKeepsInv` | src/porcupine/checker.go:190-243 | every move of the search keeps the invariant: stack legal, each visited stack off the stack fully explored, scanned part explored |
| `Search.RunInv` | src/porcupine/checker.go:190-243 | the invariant holds after every run of moves |
| `Search.OneOutcome` | src/porcupine/checker.go:179-253 | model, history, `computePartial` and what each turn reads from the flag determine the answer, the records and the number of turns |
| `Search.StopsInTime` | src/porcupine/checker.go:190-193 | a search whose turn t reads the flag up makes no more than t turns, and if it would have gone on after them it answers false with what it had recorded |
| `Search.FoundVerdict` | src/porcupine/checker.go:190-252 | an empty list means that the stack is a linearization |
| `Search.ClosureCovers` | src/porcupine/checker.go:197-213 | if all visited stacks are closed under legal extension up to equal sets and equal states, they cover every legal partial linearization: cache pruning loses nothing |
| `Search.ExhaustedVerdict` | src/porcupine/checker.go:214-217 | an empty stack at a return means that there is no linearization, and all longest partial linearizations are recorded |
| `Search.PushDecreases` | src/porcupine/checker.go:200-207 | every call taken uses up one of finitely many stacks, whatever the state type |
| `Search.CursorMinimal` | src/porcupine/checker.go:194-213 | a call before the first remaining return may come next in real time |
| `Search.ReturnBlocks` | src/porcupine/checker.go:214-242 | a call behind a remaining return may not come next |
| `Histories.CompletePartial` | src/porcupine/checker.go:179-253 | legal partial linearizations of full length are exactly the linearizations |
| `Histories.RenamingTheorem` | src/porcupine/checker.go:92-119 | linearizability is invariant under a renaming that keeps inputs, outputs and real-time order |
| `Histories.EmbeddingTheorem` | src/porcupine/model.go:28-32 | a part of a history is linearizable exactly when its operations have a legal order inside the whole |
| `LinkedEntries.InsertBefore` | src/porcupine/checker.go:70-81 | the node becomes the predecessor of the mark, and the list is the old one with it in front |
| `LinkedEntries.MakeLinkedEntries` | src/porcupine/checker.go:121-138 | the list is the entries in order, next and prev mutually inverse, each call matched with its return |
| `LinkedEntries.Length` | src/porcupine/checker.go:83-90 | counts the nodes |
| `LinkedEntries.Lift` | src/porcupine/checker.go:159-167 | removes exactly the call and its return, also when they are adjacent or the return is last, and leaves what undoing needs |
| `LinkedEntries.Unlift` | src/porcupine/checker.go:169-177 | restores exactly the list from before the lift |
| `LinkedEntries.LiftTop` | src/porcupine/checker.go:159-177 | one more lift keeps every earlier lift undoable, last in first out |
| `LinkedEntries.UnliftTop` | src/porcupine/checker.go:159-177 | undoing the last lift gives back the list and the undoability of all earlier ones |
| `Weaving.LiftOperation` | src/porcupine/checker.go:159-167 | after any last-in-first-out sequence the heap list is the entries without exactly the lifted operations |
| `Weaving.UnliftOperation` | src/porcupine/checker.go:169-177 | the same after taking the last one back |
| `Weaving.Weave` | src/porcupine/checker.go:180-189 | list, length and sentinel are set up for the search |
| `Weaving.NextNode` | src/porcupine/checker.go:207-213 | the next pointer leads to the next remaining entry |
| `Caches.CacheContains` | src/porcupine/checker.go:145-152 | found exactly when a stack with the same operations and an equal state was entered before: the hashed buckets never miss |
| `Caches.Insert` | src/porcupine/checker.go:201-202 | the cache remembers the old stacks and the new one |
| `Bitsets.NewBitset` | src/porcupine/bitset.go:10-17 | a fresh bitset of as many 64-bit words as the bits need, representing the empty set |
| `Bitsets.MemberMeaning` | src/porcupine/bitset.go:25-27 | position p is digit p % 64, from the low end, of word p / 64 |
| `Bitsets.Clone` | src/porcupine/bitset.go:19-23 | a fresh array with the same words |
| `Bitsets.Set` | src/porcupine/bitset.go:29-33 | the represented set gains exactly the position |
| `Bitsets.Clear` | src/porcupine/bitset.go:35-39 | the represented set loses exactly the position |
| `Bitsets.Get` | src/porcupine/bitset.go:41-44 | true exactly for members |
| `Bitsets.PopCnt` | src/porcupine/bitset.go:46-52 | the size of the represented set |
| `Bitsets.PopCountIsSize` | src/porcupine/bitset.go:46-52 | the ones of all words are the members of the set |
| `Bitsets.Hash` | src/porcupine/bitset.go:54-60 | the hash of the words, and of every bitset of the same width that represents the same set |
| `Bitsets.SameHash` | src/porcupine/bitset.go:54-60 | two bitsets of one width that represent the same set hash equally |
| `Bitsets.HashMeaning` | src/porcupine/bitset.go:54-60 | each digit of the hash is that of the size of the set, flipped once for each word that has it |
| `Bitsets.Equals` | src/porcupine/bitset.go:62-72 | true exactly when the represented sets are equal |
| `Bitsets.RepresentationIsUnique` | src/porcupine/bitset.go:54-72 | two bitsets of one width with the same members have the same words |
| `Entries.MakeEntries` | src/porcupine/checker.go:48-60 | one call and one return for each operation, with its value, time and client, by time and at the same time calls before returns |
| `Entries.SortedWellFormed` | src/porcupine/checker.go:39-60 | any such sort is well formed exactly when no operation returns before its call |
| `Entries.SortedPositions` | src/porcupine/checker.go:39-46 | in any such sort a return stands before a call exactly when it happened strictly earlier |
| `Entries.SortedVerdict` | src/porcupine/checker.go:39-60 | however ties are sorted, the entries are linearizable exactly when the operations are |
| `Entries.Renumber` | src/porcupine/checker.go:92-106 | ids become 0..n-1 by first appearance through an injective renaming that keeps order, client, kind and value |
| `Entries.ConvertEntries` | src/porcupine/checker.go:108-119 | one entry for each event, with its kind, value, id and client, timed by its index |
| `Entries.EntriesWellFormed` | src/porcupine/checker.go:92-119 | a complete event history gives well-formed entries |
| `Entries.RenumberedVerdict` | src/porcupine/checker.go:355-363 | the entries are linearizable exactly when the operations of the original events are |
| `ParallelChecker.RunGoroutine` | src/porcupine/checker.go:281-285 | a goroutine reports what the search promises, given that the kill flag never goes down again |
| `ParallelChecker.RunInv` | src/porcupine/checker.go:274-353 | the invariant of goroutines, channel and collecting loop holds after every interleaving |
| `ParallelChecker.Safety` | src/porcupine/checker.go:274-353 | Ok implies that all partitions are linearizable, Illegal that one is not, Unknown that the timer was set and fired; in every run in which it did not fire Ok exactly when all are |
| `ParallelChecker.ResultMeaning` | src/porcupine/checker.go:286-351 | every run returns Illegal if the loop took a no out of the channel in its select, also if the timer fired later; otherwise Unknown if the timer fired; otherwise Ok |
| `ParallelChecker.RunMeaning` | src/porcupine/checker.go:287-310 | the kill flag is up exactly when the timer has fired, or a no was taken and no information is asked for; the select has ended exactly then, or when the last verdict was taken |
| `ParallelChecker.StepMeaning` | src/porcupine/checker.go:293-309 | taking a verdict out of the channel takes the first one, counts it and leaves the timer alone |
| `ParallelChecker.ReadAfterReport` | src/porcupine/checker.go:311-340 | when `longest` is read every goroutine has reported, and every slot holds what its goroutine promised |
| `ParallelChecker.CanSend` | src/porcupine/checker.go:277-284 | a verdict always has room in the channel |
| `ParallelChecker.RunsEnd` | src/porcupine/checker.go:280-318 | no run is longer than three steps for each partition and two more |
| `ParallelChecker.Returns` | src/porcupine/checker.go:287-310 | every reachable state is the end or has a next step, exactly when there is a partition or a timer |
| `KvModel.OneKeyIsValid` | src/models/kv.go:35-54 | the one-key model is what the search demands of a model |
| `KvModel.OneKeyMeaning` | src/models/kv.go:35-54 | an order is legal for one key exactly when every get returned the value of the last put before it followed by the appends since, and it ends with that value |
| `KvModel.StoreRunsKeys` | src/models/kv.go:35-54 | running a store of all keys leaves every key as running its own operations does |
| `KvModel.KeysRunStore` | src/models/kv.go:35-54 | if every key accepts its operations in their order, the store accepts them all |
| `KvModel.WholeToPart` | src/models/kv.go:18-54 | a linearizable history has linearizable parts |
| `KvModel.MergeAll` | src/porcupine/model.go:28-32 | orders of all keys merge into one that respects real time, always taking the next operation of the key with the earliest remaining return |
| `KvModel.PartsToWhole` | src/models/kv.go:18-54 | if every part is linearizable for one key, the history is for the store |
| `KvModel.Locality` | src/models/kv.go:18-54 | the history is linearizable for the store exactly when every key's part is for one key |
| `KvModel.Partition` | src/models/kv.go:18-34 | the parts of exactly the keys of the history, each once, in key order, each in history order |
| `Strings.ItoaMeaning` | src/mrapps/wc.go:37-40 | a number in a name or a count is its decimal numeral: digits only, no zero in front, and the number is its value |
| `Strings.LessMeaning` | src/mr/worker.go:20-23 | a string is less than exactly its proper extensions and the strings with a greater character where the two first differ |
| `CheckHistories.MakeAllEntries` | src/porcupine/checker.go:368-371 | sorted entries for every part |
| `CheckHistories.OperationsVerdict` | src/porcupine/checker.go:365-373 | for every model whose partition function keeps its contract and every interleaving, the verdict is right about the whole history |
| `CheckHistories.NoPartitionContract` | src/porcupine/model.go:51-53 | the default partition keeps the contract |
| `CheckHistories.KvPartitionContract` | src/models/kv.go:18-34 | the split by key keeps the contract |
| `CheckHistories.PrepareStore` | src/porcupine/checker.go:365-373 | for the key/value model every run that returns has the right verdict about the store's history |
| `CheckHistories.StoreReturns` | src/porcupine/checker.go:287-310 | every run can go on to its verdict exactly when the history is not empty or a timer is set |
| `CheckHistories.ConvertAll` | src/porcupine/checker.go:358-361 | renumbered, index-timed entries for every part |
| `CheckHistories.EventsVerdict` | src/porcupine/checker.go:355-363 | for every model whose event partition keeps its contract and every interleaving, the verdict is right about the whole event history |
| `CheckHistories.NoPartitionEventContract` | src/porcupine/model.go:55-57 | the default event partition keeps the contract |
| `CheckHistories.PrepareEvents` | src/porcupine/checker.go:355-363 | for every partition of the events that keeps its contract, every run that returns has the right verdict about the original events |
| `CheckHistories.PutThenGetMisjudged` | src/models/kv.go:35-54 | for any two keys, a put to one followed by a get of the other is linearizable for the store and refused by the one-key model |
| `CheckHistories.EventsNeedOneKey` | src/models/kv.go:17-69 | judging whole event histories with the one-key model is right for all histories over a set of keys exactly when the set has no two keys |
| `Visualization.FillHistory` | src/porcupine/visualization.go:37-54 | every operation's values, times, client and description come from its two entries |
| `Visualization.ReplayPartial` | src/porcupine/visualization.go:62-79 | shows the state after every step, and refuses exactly when the model does |
| `Visualization.VisualizePartition` | src/porcupine/visualization.go:36-85 | panics exactly when a given sequence does not replay; otherwise partials by falling length, and `Largest` sends each covered id to a longest partial with it |
| `Visualization.CollectedReplays` | src/porcupine/checker.go:319-340 | whatever a search recorded, stopped or not, replays |
| `Visualization.ReturnedReplays` | src/porcupine/visualization.go:62-70 | what any verbose run returns cannot cause the panic, and without a kill no legal partial linearization with an operation is longer than the longest returned |
| `Tasks.TaskNameInjective` | src/mr/coordinator.go:392-399 | task names are not empty and name one index |
| `Tasks.FirstWaiting` | src/mr/coordinator.go:150-157 | the first waiting task, or none |
| `Tasks.FindTask` | src/mr/coordinator.go:119-121 | the first task with an id, or none |
| `Tasks.FindWorker` | src/mr/coordinator.go:219-225 | the first worker with an id, or none |
| `Tasks.UpdateAnswer` | src/mr/coordinator.go:83-148 | an update is answered with done exactly when it names both parties and a task of that worker's; it counts exactly when that task was not done before, and only then does the reply carry the phase; any other update changes nothing |
| `Tasks.RequestAnswer` | src/mr/coordinator.go:150-247 | a reply with a task carries the name, file, partition and counts of the first waiting task of the phase; any other is empty but for the phase |
| `Coordinators.Coordinator.constructor` | src/mr/coordinator.go:385-404 | one waiting map task for each file, no reduce task, map phase |
| `Coordinators.Coordinator.RegisterWorker` | src/mr/coordinator.go:24-38 | the worker is appended, nothing else changes |
| `Coordinators.Coordinator.TaskTransitionManager` | src/mr/coordinator.go:40-81 | the whole new state after a completion |
| `Coordinators.Coordinator.TaskUpdateByWorker` | src/mr/coordinator.go:83-148 | the whole new state and reply for every kind of update, accepted or refused |
| `Coordinators.Coordinator.AssignMapTask` | src/mr/coordinator.go:150-172 | the first waiting map task is handed out; with none the reply stays empty |
| `Coordinators.Coordinator.AssignReduceTask` | src/mr/coordinator.go:174-200 | the first waiting reduce task is handed out; with none the reply still names the phase |
| `Coordinators.Coordinator.TaskRequestByWorker` | src/mr/coordinator.go:202-247 | the whole new state and reply for every request |
| `CoordinatorRuns.RunInv` | src/mr/coordinator.go:40-247 | after any sequence of calls tasks keep their names and files, waiting tasks have no owner, done tasks a named one, and the phase fits |
| `CoordinatorRuns.PhaseMeaning` | src/mr/coordinator.go:40-81 | with a file and a reduce task: map phase iff a map task is not done, reduce phase iff all are and a reduce task is not, finished iff all are; exactly nReduce reduce tasks, created once |
| `CoordinatorRuns.ReduceAfterMap` | src/mr/coordinator.go:174-247 | no reduce task is handed out before the last map task is done |
| `CoordinatorRuns.StepEffect` | src/mr/coordinator.go:83-247 | a call changes no task, hands out one waiting task of the current phase, or completes one pending task for its owner |
| `CoordinatorRuns.RunAdvances` | src/mr/coordinator.go:83-247 | over any stretch of a run tasks only move forward and keep their owner |
| `CoordinatorRuns.GrantedOnce` | src/mr/coordinator.go:150-200 | over a whole run no task is handed out twice |
| `CoordinatorRuns.OwnerFixed` | src/mr/coordinator.go:150-200 | once handed out, a task keeps its owner for the rest of the run |
| `CoordinatorRuns.OnlyOwnerCompletes` | src/mr/coordinator.go:118-143 | a completion is an update by the owner, which was handed that task earlier in the run |
| `CoordinatorRuns.ReplayedUpdate` | src/mr/coordinator.go:118-143 | an update that was acknowledged changes nothing at any later point, although map and reduce tasks share names |
| `CoordinatorProgress.StepProgress` | src/mr/coordinator.go:40-247 | an effective call lowers the remaining work by one, any other leaves it |
| `CoordinatorProgress.RunProgress` | src/mr/coordinator.go:40-247 | effective calls so far plus remaining work are 2 * (files + nReduce) |
| `CoordinatorProgress.FinishedRun` | src/mr/coordinator.go:68-79 | a run that finishes has made exactly 2 * (files + nReduce) effective calls |
| `CoordinatorProgress.EffectiveEnabled` | src/mr/coordinator.go:83-247 | an effective call is possible exactly when a task waits and a worker is registered, or a task is with an owner that has a name |
| `CoordinatorProgress.CanFinish` | src/mr/coordinator.go:40-247 | with a named worker and nothing stranded, finished is exactly the remaining number of calls away |
| `CoordinatorProgress.FinishReachable` | src/mr/coordinator.go:40-247 | finished can be reached exactly when there is a file, a reduce task, and no task with a nameless owner |
| `CoordinatorProgress.NamelessWorkerStrands` | src/mr/coordinator.go:92-96 | a nameless worker takes the only task and the run can no longer finish |
| `CoordinatorProgress.NamedRunCanFinish` | src/mr/coordinator.go:24-38 | if no worker ever registers under the empty id, finished stays reachable after every run exactly when there is a file and a reduce task |
| `WorkerLoops.TurnGood` | src/mr/worker.go:107-203 | every step of a worker keeps: some worker of the name that owns a pending task is still at it, no two workers are at one task even if they share a name, a reply in hand is about a pending task or says that the reduce phase has none, nobody has quit while a map task waits, and somebody is left in the reduce phase |
| `WorkerLoops.PlayGood` | src/mr/worker.go:107-203 | the same after every schedule of steps |
| `WorkerLoops.RoundProgress` | src/mr/worker.go:107-203 | until the job is finished, any schedule that gives each worker three steps lowers the remaining work |
| `WorkerLoops.WorkersFinish` | src/mr/worker.go:107-203 | with a file, a reduce task and any workers, every schedule of 2 * (files + nReduce) such rounds finishes the job, although workers leave on the way |
| `WorkerLoops.QuitsWhen` | src/mr/worker.go:116-131 | a worker that asks quits exactly when the job is finished or the map phase has no task to give |
| `WorkerLoops.ReportQuits` | src/mr/worker.go:186-203 | a worker that reports quits exactly when its report counts and the job was finished before it |
| `WorkerLoops.ReportsGoOn` | src/mr/worker.go:186-203 | in no reachable state does that happen: the look at the phase after a report ends no worker's loop |
| `WorkerLoops.FinishedQuits` | src/mr/worker.go:116-203 | once the job is finished, every worker quits within its next three steps |
| `WorkerLoops.QuitsEarlyWhen` | src/main/test-mr.sh:101-102 | the promise not to exit before fails exactly when there are at least two workers: then some schedule makes a worker quit before the end, otherwise none does |
| `WorkerLoops.SecondQuits` | src/main/test-mr.sh:101-102 | for every job and any two workers, a schedule in which one of them quits in the map phase |
| `KeyValues.ReduceGroups` | src/mr/worker.go:254-283 | one line for every key of the sorted pairs, in key order, over all of its values in order |
| `KeyValues.ReduceGroupsSequentially` | src/main/mrsequential.go:72-88 | the same for the sequential program's loops |
| `KeyValues.GroupFound` | src/mr/worker.go:255-266 | where a scan stops, the group holds all pairs with its key |
| `Outputs.LinesAreOutput` | src/mr/worker.go:254-283 | the lines of a grouping loop are one line for each key, as a bag |
| `Outputs.OutputPermuted` | src/main/mrsequential.go:63-88 | the output does not depend on the order of the pairs if the reduce function ignores the order of values |
| `Outputs.LinesUnique` | src/mr/worker.go:239-283 | with a reduce function that ignores order, every sort of the same pairs gives the same lines in the same order |
| `Outputs.PartitionTheorem` | src/mr/worker.go:157-162 | splitting by hash loses no output line and adds none |
| `Workers.MapperTask` | src/mr/worker.go:138-185 | fails exactly on an unreadable file, divides by zero exactly with no reduce task and some pair; otherwise the files after writing every partition's share of the map output |
| `Workers.WritePartition` | src/mr/worker.go:164-181 | creating the file of a partition and adding its pairs one by one leaves exactly its pairs, and no other file changes |
| `Workers.SplitByHash` | src/mr/worker.go:157-162 | each partition holds the pairs with its hash, in order |
| `Workers.WriteLines` | src/mr/worker.go:241-280 | writing line by line behind the last offset leaves the lines one after the other |
| `Workers.ReducerTask` | src/mr/worker.go:205-286 | the partition's output file becomes the lines of its globbed, concatenated and sorted pairs |
| `Workers.GlobSelects` | src/mr/worker.go:210-212 | the glob pattern selects exactly the files of its partition |
| `Workers.MatchMeaning` | src/mr/worker.go:210-212 | a name matches exactly when it is the pattern with some text without a slash in place of the star |
| `Workers.NamesDiffer` | src/mr/worker.go:166-166 | intermediate file names determine task and partition |
| `Jobs.Sequential` | src/main/mrsequential.go:42-88 | fails exactly on a missing file; otherwise one line for each key of some sort of all pairs, and for an order-insensitive reduce function the bag of lines is determined |
| `MapReduce.NewReply` | src/mr/coordinator.go:150-247 | a reply that names the map phase names a map task with its file; one that names the reduce phase comes after all maps and names a valid partition |
| `MapReduce.MappedNext` | src/mr/worker.go:164-181 | one more write of a mapper leaves all its partitions written so far and touches no other file |
| `MapReduce.AllShuffled` | src/mr/worker.go:205-237 | in the reduce phase no mapper is at work and all intermediate files are complete, so that what reducers read does not change |
| `MapReduce.WrittenFile` | src/mr/worker.go:246-280 | a write at an offset, beside any number of other writers, keeps: every position of the file is right or will still be written by somebody |
| `MapReduce.StepInv` | src/mr/worker.go:107-286 | every step of any worker keeps the invariant of replies, stages, intermediate and output files |
| `Jobs.AllShares` | src/mr/worker.go:210-237 | a partition's files together hold exactly the pairs of the partition |
| `Jobs.ReducedRight` | src/mr/worker.go:205-286 | after all maps every reducer of a partition makes the same lines in the same order, also the one that was given no task |
| `Jobs.PartitionsMatch` | src/main/mrsequential.go:42-88 | the lines of all partitions together are those of the sequential program |
| `MapReduce.RunInv` | src/mr/worker.go:107-286 | replies, files being written and completed tasks agree after every interleaving, crashes included |
| `MapReduce.QuietFile` | src/mr/worker.go:246-283 | an output file that nobody is writing holds the lines of its partition |
| `MapReduce.LateWriters` | src/mr/coordinator.go:174-200 | after the end only workers that were given no task are still writing, and only to partition 0 |
| `MapReduce.FinishedOutput` | src/mr/worker.go:107-286 | in every run that reaches the finished phase the output files are those of the partitions, all but the first hold the lines of their partition, and so does the first unless somebody is writing it |
| `MapReduce.QuitOutput` | src/mr/worker.go:107-286 | in every run that reaches the finished phase and in which all workers have quit, all files hold the lines of their partition |
| `MapReduce.MatchesSequential` | src/main/mrsequential.go:42-88 | in every run that reaches the finished phase while nobody writes the first file, the files hold the lines of their partitions, which together are the sequential program's lines |
| `Completion.AlwaysEnabled` | src/mr/worker.go:107-286 | no worker is ever stuck in the middle of a task |
| `Completion.EmptyFile` | src/mr/worker.go:241-252 | for every job with a pair in the first partition and any two workers, a run in which the coordinator has finished and the first output file is empty |
| `Completion.RightAtOnce` | src/mr/worker.go:241-252 | all files are right in every run as soon as the coordinator has finished, exactly when there is at most one worker or the first partition is empty |
| `Completion.JobCompletes` | src/mr/worker.go:107-286 | in every fair run without crashes there comes a time from which on the coordinator has finished, every worker has quit and all files are right |
| `MrApps.WcMap` | src/mrapps/wc.go:19-32 | one pair for each word, in order |
| `MrApps.WcCounts` | src/mrapps/wc.go:19-40 | a word's line says how often the word occurs |
| `MrApps.WcInsensitive` | src/mrapps/wc.go:37-40 | word count ignores the order of values |
| `MrApps.FieldsSpell` | src/mrapps/wc.go:20-24 | words are runs of letters that together spell the letters of the text |
| `MrApps.WordsAreRuns` | src/mrapps/wc.go:20-24 | words are exactly the maximal runs of letters of the text, in order |
| `MrApps.IndexerMap` | src/mrapps/indexer.go:20-31 | one pair for each different word |
| `MrApps.IndexPairsPermuted` | src/mrapps/indexer.go:26-29 | ranging over the map in another order gives a permutation |
| `MrApps.IndexerReduceInPlace` | src/mrapps/indexer.go:36-39 | sorts its values, and any sort gives the same answer |
| `MrApps.JoinMeaning` | src/mrapps/indexer.go:38-38 | a join is its parts in order with one separator between each and the next, and nothing else |
| `MrApps.IndexerMeaning` | src/mrapps/indexer.go:36-39 | the answer is the number of documents and the documents, in any sorted order, with commas between them |
| `MrApps.IndexerInsensitive` | src/mrapps/indexer.go:36-39 | the indexer ignores the order of values |
| `WordCount.WordsCounted` | src/mrapps/wc.go:19-40 | in every finished run of word count in which nobody writes the first file, the lines of the files are exactly those of the words that occur, each with its number of occurrences over all files, and each once if a blank is not a letter |
| `WordCount.WordsGetCounted` | src/mrapps/wc.go:19-40 | every fair run of word count comes to that and stays there |
| `Networks.Persister.Copy` | src/raft/persister.go:30-37 | a fresh persister with the same contents |
| `Networks.Persister.Save` | src/raft/persister.go:53-58 | replaces both parts of the contents |
| `Networks.Persister.ReadRaftState` | src/raft/persister.go:39-43 | the saved Raft state |
| `Networks.Persister.ReadSnapshot` | src/raft/persister.go:60-64 | the saved snapshot |
| `Networks.Network.ReadEndnameInfo` | src/labrpc/labrpc.go:192-206 | gives a server exactly when a request through this end reaches one, and the two delivery settings |
| `Networks.Network.IsServerDead` | src/labrpc/labrpc.go:208-216 | true exactly when the end is disabled or another instance, or none, serves the name |
| `Networks.Network.AddServer` | src/labrpc/labrpc.go:332-337 | the instance serves the name |
| `Networks.Network.DeleteServer` | src/labrpc/labrpc.go:339-344 | nobody serves the name, so no instance of it is alive through any end |
| `Networks.Network.Enable` | src/labrpc/labrpc.go:356-361 | only this end's flag changes |
| `Networks.Network.Connect` | src/labrpc/labrpc.go:348-353 | only this end's connection changes |
| `Networks.Config.Supersede` | src/kvraft/config.go:308-312 | what is saved for the server becomes a fresh persister with the same contents, or an empty one; all others keep theirs |
| `Networks.Config.ShutdownServer` | src/kvraft/config.go:255-284 | nobody serves the name any more, and what is saved for it, if anything, is a copy |
| `Networks.Config.SaveThrough` | src/raft/persister.go:53-58 | a save through one persister changes no other, copies of it included |
| `CrashRestart.StepInv` | src/kvraft/config.go:255-323 | every step that replaces no persister at a loud moment keeps that whoever serves a name, or has been made to, writes to the persister saved for that name, and that saved updates only grow |
| `CrashRestart.AnsweredIsSaved` | src/kvraft/config.go:255-323 | in every run that replaces no persister at a loud moment, what the handler of a request answered with true saved is in the server's saved persister from then on, and in the persister of every instance made later |
| `CrashRestart.AnsweredThrough` | src/labrpc/labrpc.go:218-291 | every request answered with true went through an end that was enabled and connected to the instance serving its name, and at the last look before the answer that end was enabled and that instance still served the name |
| `CrashRestart.OneAtALock` | src/kvraft/config.go:255-284 | in every run at most one shutdown is between its two locked steps |
| `CrashRestart.NoneReplaced` | src/kvraft/config.go:255-313 | while one is, no other call replaces a persister |
| `CrashRestart.SavedByStart` | src/kvraft/config.go:269-275 | in every run a server has a persister saved only if a call to start it came before: shutting down what was never started saves nothing |
| `CrashRestart.RulesKeepQuiet` | src/kvraft/config.go:255-323 | if servers are shut down before they are started again, deleted before they are copied, and called on one call at a time, no run replaces a persister at a loud moment |
| `CrashRestart.Forgets` | src/kvraft/config.go:255-323 | if a rule is broken, a run in which an answered update is lost |
| `CrashRestart.RulesAreNeeded` | src/kvraft/config.go:255-323 | an answered update can be lost exactly when a server is restarted without a shutdown, copied before it is deleted, or called on while another call for it is in progress |
| `CrashRestart.LoudForgets` | src/kvraft/config.go:313-322 | after a persister was replaced while its name was served, or between making and adding an instance, an answered update can be lost without any further call |
| `CrashRestart.QuietIsWeakest` | src/kvraft/config.go:255-323 | a run replaces no persister at a loud moment exactly when at no point of it an answered update could still be lost |
| `Labgob.Checker.CheckType` | src/labgob/labgob.go:72-113 | ends on every finite graph, cyclic or not; adds only types its argument reaches, finishes whatever it adds, and counts the fields of the new structs that do not begin with an upper-case letter |
| `Labgob.Checker.CheckFields` | src/labgob/labgob.go:88-101 | the same for the fields of a struct |
| `Labgob.Checker.CheckValue` | src/labgob/labgob.go:68-113 | from a closed set exactly the reachable types are added, and the set stays closed; the count grows by the number of fields of new structs that are unnamed or do not begin with an upper-case letter, and stays exactly when there is none |
| `Labgob.Checker.CheckValues` | src/labgob/labgob.go:32-70 | over any sequence of values each such field of each type reached counts exactly once, and the count is zero exactly when every field begins with an upper-case letter |
| `Labgob.ClosedReaches` | src/labgob/labgob.go:76-84 | a closed set of types holds whatever its members reach |
| `Labgob.ComplaintsCount` | src/labgob/labgob.go:88-101 | what is counted is a set of pairs of struct and field |
| `Labgob.NoComplaints` | src/labgob/labgob.go:91-98 | nothing is counted exactly when every field of every struct begins with an upper-case letter |
| `Labgob.ChildMeaning` | src/labgob/labgob.go:87-112 | the walk goes on to the types of fields, to elements, and to keys of maps, and to nothing else |

## Left out

- The Raft, key/value and shard servers: their bodies are empty lab skeletons.
- How `sort.Sort` and `sort.Strings` sort: any permutation without inversions is allowed.
- Pointer identity of recorded sequences: `longest` holds sequences by value, and what is collected from it may list equal sequences once or several times.
- FNV arithmetic of `ihash`: any fixed function to non-negative integers.
- JSON and gob encodings, directories and file errors: an intermediate file is a sequence of pairs, an output file a string. Reading a partition is one step, which nothing can disturb (`MapReduce.AllShuffled`).
- `Healthcheck`, `WorkerSync`, sockets and timers of MapReduce: worker status never affects what is handed out. A worker whose call fails stops for good, as one that crashes does.
- Data races of the Go program: every coordinator call and every locked section is one step.
- Real time, drop rates and delays of the network: a request may fail at any point. `MakeEnd`, the setters of the delivery settings, statistics and `Cleanup` are single assignments or counters.
- What Raft saves: a handler saves any state that holds the earlier updates and its own.
- Reflection in `MakeService` and `dispatch`, and `checkDefault` of labgob.
- HTML, JSON and the other partitions' loop of the visualizer: one partition is modelled, and each is treated alike.
- The remaining applications in `src/mrapps`, the test drivers and the old mains.
- KvModel.Locality: asks that no operation returns before its call, as the checker does of every history.
