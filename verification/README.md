# Verified models of a linearizability checker, MapReduce and a simulated RPC network

A Dafny model of three parts of the course software under `Lab 2/src`, with proofs of what they are for.
Verify it with `dafny verify dfyconfig.toml`.

**The linearizability checker** (`porcupine`, `models/kv.go`). `Histories.dfy` says what a linearization is, without
mentioning the search. `CheckSingle.dfy` carries the search as the source has it: a doubly linked list edited in
place by lifting and unlifting (`LinkedEntries.dfy`), a bitset updated in place (`Bitset.dfy`), a cache in hash buckets,
a stack of calls. It is proved sound with a witness, complete in spite of the cache, terminating, and maximal in the
partial linearizations it records. `Search.dfy` holds the invariant of the search over lists of ids. Around the search,
`Operations.dfy` and `Events.dfy` prove that the entry lists mean the same as the operations or events given,
`Locality.dfy` and `Kv.dfy` that splitting by key decides the whole store, `Parallel.dfy` that the concurrent collection
of results gives a true verdict in every interleaving, `Checker.dfy` the checks from end to end, and `Visualization.dfy`
that whatever a check recorded can be shown. `Collections.dfy` has what is not about any one component.

**MapReduce** (`mr`, `main/mrsequential.go`). `Coordinator.dfy` is the coordinator as a class with the tables it updates.
`MapReduce.dfy` has the job, the sequential program and the worker's two tasks. `MapReduceSystem.dfy` puts them into one
state machine with any number of workers, a clock, timeouts, crashes, half-done writes that others can see, lost messages
and late or repeated reports. `MapReduceProgress.dfy` proves how runs can go on, and when the output is certain.

**The RPC life cycle** (`labrpc`, `raft/persister.go`, two functions of `kvraft/config.go`). `Rpc.dfy` has the persister
as a class, and a state machine in which requests, handlers, saves, shutdowns and restarts interleave freely.

## What the proofs show about the code

- `checkParallel` never returns for an empty history without a timeout: no part exists, so no result arrives
  (`Parallel.EmptyHangs`). In all other cases it returns on every schedule (`Parallel.ReturnsUnlessEmpty`), so
  `Checker.CheckOperations` asks for an operation or a timeout.
- MapReduce workers write `mr-i-r` and `mr-out-r` in place. A worker whose task was given to another worker after a
  timeout can begin to rewrite files that are already complete. The timeout is what decides: as long as it reclaims no
  task, the output of a finished job is right whatever else happens (`MapReduceSystem.MeaningPreserved`), and a single
  reclaim is enough to lose output of any job that has some (`MapReduceProgress.TimeoutsDecide`). Runs with reclaims are
  still right if no worker begins to rewrite the files of a task that another worker has executed.
- A positive reply means that the handler's saves survive a restart exactly because a server is shut down before it is
  started again (`Rpc.SafeExactlyAfterShutdown`).
- The comment at `Lab 2/src/porcupine/checker.go:64` says that nodes without a match are calls. In the code calls have a
  match and returns have none, and the model follows the code.

## Premises

- Operations are called no later than they return. Otherwise the call node is built before its return node is known.
- `Equal` is reflexive and transitive and `Step` respects it. Plain equality, the default, is one case.
- The sorts are parameters of which only the order and the rearrangement are assumed, nothing about ties.
- The kill flag is a function from the number of the read to its value, and the timer of a check one from the turn to
  whether it has fired; clocks, dropped messages and the order in which maps are traversed are free choices.
- The map function is a function of the file; the reduce function does not depend on the order of the values; encoding
  and decoding a pair gives it back; there is at least one reduce task; the input files do not change.
- A task is executed in one step, except that any half-done state of its writes can be seen before that step.
- Shutting down and starting one server do not overlap in time, and the network is not cleaned up during a run.

## Model

| member | source | states |
|---|---|---|
| `CheckSingle.CheckSingle` | Lab 2/src/porcupine/checker.go:179-253 | The search ends for every history. True comes with one order of all operations that never reverses real time and replays with every step accepted, recorded for every operation; false without a kill means that no such order exists. The flag is read at every turn: it was down at all turns taken, and a killed search stopped at the first turn at which it was up. The turns are exactly those of the search over ids, which also fixes what a killed search returns. Recorded partial linearizations are always genuine, and are as long as possible unless the search was killed or did not record. |
| `CheckSingle.TryCall` | Lab 2/src/porcupine/checker.go:194-213 | At a call, taking it or moving past it is the turn of the search over ids, keeps the invariant of the loop and makes the termination measure smaller. |
| `CheckSingle.Backtrack` | Lab 2/src/porcupine/checker.go:214-242 | At a return with calls on the stack, recording, popping and restoring the list is the turn of the search over ids, keeps the invariant of the loop and makes the stack shorter. |
| `CheckSingle.StackBound` | Lab 2/src/porcupine/checker.go:190-243 | After t turns at most t calls are on the stack, so a successful search took at least as many turns, and reads of the flag, as there are operations. |
| `CheckSingle.RecordCalls` | Lab 2/src/porcupine/checker.go:218-234 | Each operation on the stack gets the stack as its list exactly if it had none or a shorter one, and no other entry changes. |
| `CheckSingle.LiftCall` | Lab 2/src/porcupine/checker.go:159-167 | Lifting a call removes exactly its two nodes from the list of the remaining entries, and every operation on the stack can still be put back. |
| `CheckSingle.UnliftCall` | Lab 2/src/porcupine/checker.go:169-177 | Unlifting the last call lifted gives back the list without it on the stack, with every link as before. |
| `CheckSingle.BuildList` | Lab 2/src/porcupine/checker.go:180-189 | The list built for a history carries its entries in order behind the head, call nodes pointing to their return nodes, and `n` is the number of operations. |
| `CheckSingle.CallHasNext` | Lab 2/src/porcupine/checker.go:207-212 | A remaining call always has an entry after it, so `entry` never becomes nil inside the loop. |
| `Search.AllowedNext` | Lab 2/src/porcupine/checker.go:194-216 | The operations that real time allows next are exactly those whose call stands before every remaining return. |
| `Search.ScannedCallIsReady` | Lab 2/src/porcupine/checker.go:194-196 | A call reached by the scan may be linearized next. |
| `Search.ScannedToReturnIsClosed` | Lab 2/src/porcupine/checker.go:214-217 | When the scan reaches a return, every operation allowed next has been tried or leads to a cached configuration. |
| `Search.Push` | Lab 2/src/porcupine/checker.go:200-207 | The search invariant survives linearizing a call whose configuration is new. |
| `Search.Skip` | Lab 2/src/porcupine/checker.go:208-213 | The search invariant survives moving past a call that is refused or leads to a cached configuration. |
| `Search.Pop` | Lab 2/src/porcupine/checker.go:218-241 | The search invariant survives recording the stack and giving up its top. |
| `Search.EverythingCovered` | Lab 2/src/porcupine/checker.go:145-152 | Once every cached configuration is fully explored, every partial linearization reaches a cached configuration: skipping cached ones loses nothing. |
| `Search.Exhausted` | Lab 2/src/porcupine/checker.go:215-217 | Reaching a return with an empty stack proves that no linearization exists, and that the recorded lists are as long as possible. |
| `Search.CompleteIsLongest` | Lab 2/src/porcupine/checker.go:244-252 | A linearization has all operations and no partial linearization is longer. |
| `Search.PushDecreases` | Lab 2/src/porcupine/checker.go:200-202 | Caching a new configuration makes the finite set of uncached runs strictly smaller. |
| `LinkedEntries.Lift` | Lab 2/src/porcupine/checker.go:159-167 | The list becomes the list without the two nodes, well linked both ways, also when they are adjacent; the removed nodes and those removed earlier keep their own links; the call has a node after it, so the unguarded dereference is safe. |
| `LinkedEntries.Unlift` | Lab 2/src/porcupine/checker.go:169-177 | The list is again exactly what it was before the lift; the call remembers a node after it, so the unguarded dereference is safe. |
| `LinkedEntries.InsertBefore` | Lab 2/src/porcupine/checker.go:70-81 | The links of the new node, the mark and the node before it after the insertion, and no effect without a mark. |
| `LinkedEntries.MakeLinkedEntries` | Lab 2/src/porcupine/checker.go:121-138 | The result is a doubly linked list of fresh nodes carrying the entries in order; each call node points to the node of its own, later return. |
| `LinkedEntries.Length` | Lab 2/src/porcupine/checker.go:83-90 | Counts the nodes of the list. |
| `Bitset.NewBitset` | Lab 2/src/porcupine/bitset.go:10-17 | A fresh bitset stands for the empty set and has the least number of words for its bits. |
| `Bitset.Clone` | Lab 2/src/porcupine/bitset.go:19-23 | A fresh copy of the same words. |
| `Bitset.Set` | Lab 2/src/porcupine/bitset.go:29-33 | Adds exactly the given id to the set. |
| `Bitset.Clear` | Lab 2/src/porcupine/bitset.go:35-39 | Removes exactly the given id from the set. |
| `Bitset.Get` | Lab 2/src/porcupine/bitset.go:41-44 | Answers membership in the set. |
| `Bitset.Popcnt` | Lab 2/src/porcupine/bitset.go:46-52 | Counts the elements of the set. |
| `Bitset.Hash` | Lab 2/src/porcupine/bitset.go:54-60 | Each bit of the hash is the parity of the words that have it and of the number of elements, as a word, having it; so equal sets of one length hash equally. |
| `Bitset.WordOfMeans` | Lab 2/src/porcupine/bitset.go:55-55 | A number that fits into a word is kept exactly. |
| `Bitset.Equals` | Lab 2/src/porcupine/bitset.go:62-72 | True exactly for bitsets of one length that stand for the same set. |
| `Bitset.MembersInjective` | Lab 2/src/porcupine/bitset.go:5-8 | Two bitsets of one length that stand for the same set are the same words. |
| `Cache.CacheContains` | Lab 2/src/porcupine/checker.go:145-152 | Looking in one bucket answers whether a configuration with the same operations and a comparable state was ever inserted anywhere. |
| `Cache.Insert` | Lab 2/src/porcupine/checker.go:201-202 | Appending to the bucket of the hash adds exactly that configuration. |
| `Operations.MakeEntries` | Lab 2/src/porcupine/checker.go:48-60 | The entries are exactly the call and the return of each operation with its input or output, number, time and client, by time and with calls before returns, whatever the sort does with other ties. |
| `Operations.EntriesWellFormed` | Lab 2/src/porcupine/checker.go:48-60 | Each id has exactly one call entry followed by exactly one return entry. |
| `Operations.OrderEncoded` | Lab 2/src/porcupine/checker.go:39-46 | The return of `a` stands before the call of `b` exactly if `a` returned strictly before `b` was called. |
| `Operations.EntriesFaithful` | Lab 2/src/porcupine/checker.go:48-60 | The entries have a linearization exactly if the operations are linearizable. |
| `Events.Renumber` | Lab 2/src/porcupine/checker.go:92-106 | The new ids are 0 to n-1 in the order in which the old ids first occur, two events get the same new id exactly if they had the same id, and nothing else of an event changes. |
| `Events.ConvertEntries` | Lab 2/src/porcupine/checker.go:108-119 | Entry `i` is event `i` with its index as time. |
| `Events.RenumberedWellFormed` | Lab 2/src/porcupine/checker.go:92-119 | The converted events pair each id with one call and one later return, so every id used by the search is in range. |
| `Events.RenumberingFaithful` | Lab 2/src/porcupine/checker.go:92-119 | The converted events have a linearization exactly if the events as given have one under their own ids. |
| `Events.CheckEvents` | Lab 2/src/porcupine/checker.go:355-363 | For any partition function that keeps its promise, Ok and Illegal are the truth about the events as given, and Unknown needs a timer that fires; without one the answer is Ok exactly for linearizable events and otherwise Illegal. Verbose information is about the events of the parts. |
| `Events.NoPartitionSplits` | Lab 2/src/porcupine/model.go:55-57 | The default partition function keeps the promise. |
| `Locality.SplitByKey` | Lab 2/src/porcupine/model.go:28-33 | A history is linearizable for the store of all keys exactly if the operations on each key are linearizable for the one-key model. |
| `Locality.Restrict` | Lab 2/src/porcupine/model.go:28-33 | A linearization of the whole restricts to one on each key. |
| `Locality.Combine` | Lab 2/src/porcupine/model.go:28-33 | Linearizations on each key weave into one of the whole. |
| `Kv.GetsReadWhatWasWritten` | Lab 2/src/models/kv.go:40-54 | A sequence of operations is a legal run of the store exactly if each get returns the value of the last put on its key, or the empty string if there is none, followed by the values of the appends on the key since then, in order. |
| `Kv.StoreRun` | Lab 2/src/models/kv.go:40-54 | A run of the get/put/append store and a run of one-key models agree on every key and accept the same operations. |
| `Kv.KvLocality` | Lab 2/src/models/kv.go:17-54 | The get/put/append store is linearizable exactly if every key is for the one-key model. |
| `Kv.Partition` | Lab 2/src/models/kv.go:18-34 | One part for each key that occurs, in the order of the keys, holding exactly the operations on it in order. |
| `Parallel.NextInv` | Lab 2/src/porcupine/checker.go:274-352 | Every step of the searches, the collecting loop, the timeout and the draining loop keeps the invariant. |
| `Parallel.RunVerdict` | Lab 2/src/porcupine/checker.go:274-352 | In every run, Ok and Illegal are the truth about all parts; every result taken into account is the truth, so no killed search counts; a false one makes the verdict Illegal, also after a timeout, and otherwise the verdict is Unknown exactly if the timer fired; the kill flag is up exactly if the timer fired or a failure ended the loop early. |
| `Parallel.NextDecreases` | Lab 2/src/porcupine/checker.go:292-318 | Every step makes the number of steps left smaller. |
| `Parallel.NotStuck` | Lab 2/src/porcupine/checker.go:292-318 | With a part or a timeout, some step is possible until the verdict is returned. |
| `Parallel.EmptyHangs` | Lab 2/src/porcupine/checker.go:292-310 | With no parts and no timeout nothing ever happens: the loop waits forever. |
| `Parallel.ReturnsUnlessEmpty` | Lab 2/src/porcupine/checker.go:292-318 | Every run has at most 2n + 2 steps, and every run that cannot go on has returned a verdict exactly if there is a part or a timeout. |
| `Checker.RunSearch` | Lab 2/src/porcupine/checker.go:281-285 | A search reports the truth, or false if the kill flag was up; what it recorded is genuine, and as long as possible if the flag was down. |
| `Checker.CheckParallel` | Lab 2/src/porcupine/checker.go:274-353 | The method takes a run of the machine, in which the timer fires only when its input says so, to its verdict; if the timer never fires the verdict is Ok exactly if all parts have a linearization and otherwise Illegal. In verbose mode the lists of every part are different nonempty partial linearizations and, unless the timer fired, are for each operation that has any a longest one, and nothing else. |
| `Checker.RecordedLists` | Lab 2/src/porcupine/checker.go:319-338 | The lists kept are exactly the recorded ones, each once. |
| `Checker.CheckParts` | Lab 2/src/porcupine/checker.go:365-373 | Ok means every part is linearizable, Illegal that some part is not, Unknown that a timer was set and fires; verbose information is about the entries of the parts. |
| `Checker.CheckOperations` | Lab 2/src/porcupine/checker.go:365-373 | With the key/value model, Ok and Illegal are the truth about the whole store, and if no timer fires the answer is Ok exactly for linearizable histories and otherwise Illegal; verbose information is returned for every key. |
| `Checker.PartsDecide` | Lab 2/src/models/kv.go:18-34 | All parts are linearizable for the one-key model exactly if the whole history is for the store. |
| `Visualization.CollectValues` | Lab 2/src/porcupine/visualization.go:37-53 | Each operation is shown with the client, times, input and output of its own call and return. |
| `Visualization.Replay` | Lab 2/src/porcupine/visualization.go:64-78 | Shows the state after each operation of a list exactly if the model accepts the list; otherwise the panic. |
| `Visualization.EnterSizes` | Lab 2/src/porcupine/visualization.go:65-77 | After one more list, each operation that occurs points to the first of the longest lists that contain it. |
| `Visualization.ComputeVisualizationData` | Lab 2/src/porcupine/visualization.go:33-87 | Panics exactly if the model refuses some list of some part; otherwise every part is shown with its operations, its lists with their states, longest first, and a longest list for each operation. |
| `Visualization.LargestIsBest` | Lab 2/src/porcupine/visualization.go:55-77 | If the lists include a longest one for each operation, the operation points to one that is as long as any partial linearization containing it. |
| `Visualization.Visualize` | Lab 2/src/porcupine/visualization.go:33-87 | What a check collected never leads to the panic and is shown completely; without a timeout the display is the best possible. |
| `Visualization.CheckAndVisualize` | Lab 2/src/porcupine/visualization.go:33-87 | A verbose check of a key/value history followed by its display, end to end: the right verdict, never the panic, every operation of every key with its own client, times, input and output, and unless the timer fires the best possible display of every key. |
| `Coordination.FirstFree` | Lab 2/src/mr/coordinator.go:39-52 | The first task that is neither completed nor assigned. |
| `Coordination.WaitMeans` | Lab 2/src/mr/coordinator.go:54-79 | "wait" is the reply exactly if the job is unfinished and every unfinished task of the current phase is assigned. |
| `Coordination.Coordinator.constructor` | Lab 2/src/mr/coordinator.go:193-233 | One map task for each file and `nReduce` reduce tasks, none assigned or completed. |
| `Coordination.Coordinator.AssignTask` | Lab 2/src/mr/coordinator.go:34-80 | Hands out the first map task that is neither completed nor assigned, or once all map tasks are completed the first such reduce task, marks it assigned now and changes nothing else; otherwise exit or wait, changing nothing. |
| `Coordination.Coordinator.ReportTaskDone` | Lab 2/src/mr/coordinator.go:82-103 | Marks exactly the reported task completed and not assigned; panics, changing nothing, exactly for a task number the tables do not have. |
| `Coordination.Coordinator.AllMapTasksDone` | Lab 2/src/mr/coordinator.go:105-112 | True exactly if all map tasks are completed. |
| `Coordination.Coordinator.AllReduceTasksDone` | Lab 2/src/mr/coordinator.go:114-121 | True exactly if all reduce tasks are completed. |
| `Coordination.Coordinator.CheckTaskTimeouts` | Lab 2/src/mr/coordinator.go:123-152 | A task loses its assignment exactly if it was assigned, not completed and started more than 10_000_000_000 nanoseconds ago, and nothing else changes. |
| `Coordination.Coordinator.Done` | Lab 2/src/mr/coordinator.go:175-186 | True exactly if all tasks are completed, which it also remembers. |
| `Jobs.BucketPairsFacts` | Lab 2/src/mr/worker.go:80-96 | A reduce task sees exactly the keys of its bucket, and for each of them exactly the values the whole job emitted, in order. |
| `Jobs.OutputReports` | Lab 2/src/main/mrsequential.go:38-84 | An output has one line for each key that the map function emits for some input file: the key, a space, what the reduce function makes of all the values emitted for it, and a newline. |
| `Jobs.OutputUnique` | Lab 2/src/main/mrsequential.go:68-84 | Any two outputs for the same pairs have the same lines. |
| `Jobs.JoinedIsOutput` | Lab 2/src/mr/worker.go:107-144 | Outputs of all reduce tasks together are an output of the whole job. |
| `Sequential.RunHasAllValues` | Lab 2/src/main/mrsequential.go:68-77 | In a sorted list, a run of equal keys holds all values of its key. |
| `Sequential.RunLine` | Lab 2/src/main/mrsequential.go:74-83 | The line written for a run is the line of its key for the unsorted pairs. |
| `Sequential.Run` | Lab 2/src/main/mrsequential.go:38-84 | The sequential program writes, in the order of the keys, one line for each key that the map function emits, made from all its values, whatever the sort does with equal keys. |
| `Collections.LessMeans` | Lab 2/src/main/mrsequential.go:23-23 | Strings are ordered by their first difference, and a proper prefix comes first. |
| `Workers.ExecuteMapTask` | Lab 2/src/mr/worker.go:66-105 | Replaces exactly the files of the task; file r holds, in order, exactly the pairs emitted for its input file whose key hashes to r modulo the number of reduce tasks. |
| `Workers.ExecuteReduceTask` | Lab 2/src/mr/worker.go:107-144 | Fails exactly if an input file is missing; otherwise writes an output for the pairs in its input files. |
| `MapReduceSystem.NextTasks` | Lab 2/src/mr/coordinator.go:34-152 | Every step of coordinator, workers, clock, crashes and lost messages keeps the tables in agreement with what happened to each task. |
| `MapReduceSystem.NextInv` | Lab 2/src/mr/worker.go:66-144 | Every clean step also keeps the files of executed map tasks and the outputs of executed reduce tasks right; for a job that emits nothing every step does. |
| `MapReduceSystem.CleanWithoutReclaims` | Lab 2/src/mr/coordinator.go:123-152 | As long as no timeout has reclaimed a task, a worker that holds a task is the only one that ever got it, so no finished file is rewritten. |
| `MapReduceSystem.ReclaimedOnlyByTimeout` | Lab 2/src/mr/coordinator.go:130-144 | No task has been reclaimed exactly if the guard of the timeout check was false for every task at every check. |
| `MapReduceSystem.MeaningPreserved` | Lab 2/src/mr/worker.go:35-154 | Once the job is done and no timeout reclaimed a task, the output files hold together exactly the lines of the sequential program, one for each key emitted, whatever crashed, got lost or was seen half done; likewise in every clean run. |
| `MapReduceProgress.TimeoutsDecide` | Lab 2/src/mr/coordinator.go:123-152 | In all runs with at most n reclaims a finished job has the right output exactly if n is zero or the job emits nothing. |
| `MapReduceProgress.LosesOutput` | Lab 2/src/mr/worker.go:129-140 | Every job that emits a pair has a run with a single reclaim that ends done with output missing: the files are rewritten in place. |
| `MapReduceProgress.RightOnlyIfEmpty` | Lab 2/src/mr/worker.go:80-140 | With any number of reclaims, a finished job is certain to have the right output exactly if it emits no pairs. |
| `MapReduceProgress.CanFinish` | Lab 2/src/mr/coordinator.go:34-152 | From every reachable state the job can be finished: no state is a dead end. |
| `MapReduceSystem.InputsReady` | Lab 2/src/mr/worker.go:107-128 | Once all map tasks are completed, undisturbed, the input files of every reduce task hold exactly its bucket. |
| `MapReduceSystem.PhaseSafety` | Lab 2/src/mr/coordinator.go:34-80 | No task is both assigned and completed; a reduce task is handed out only when all map tasks are completed and its input files exist; undisturbed by timeouts they hold its whole bucket, and exit is replied only when the output is right. |
| `MapReduceSystem.CompletedStays` | Lab 2/src/mr/coordinator.go:82-103 | Completed tasks stay completed, and once exit is the reply it stays the reply. |
| `MapReduceSystem.HandoutsSpaced` | Lab 2/src/mr/coordinator.go:39-65 | Two handouts of one task are more than 10_000_000_000 nanoseconds apart. |
| `MapReduceSystem.HandoutsConserved` | Lab 2/src/mr/coordinator.go:123-152 | Each task has been handed out as often as it timed out, or once more. |
| `Persisters.Clone` | Lab 2/src/raft/persister.go:24-28 | A fresh copy of the same bytes. |
| `Persisters.Persister.constructor` | Lab 2/src/raft/persister.go:20-22 | A new persister is empty. |
| `Persisters.Persister.Copy` | Lab 2/src/raft/persister.go:30-37 | A fresh persister with the same contents, sharing the byte slices. |
| `Persisters.Persister.Save` | Lab 2/src/raft/persister.go:53-58 | Replaces both fields by fresh copies of the arguments, leaving the old slices untouched. |
| `Persisters.Persister.ReadRaftState` | Lab 2/src/raft/persister.go:39-43 | A fresh copy of the saved state. |
| `Persisters.Persister.ReadSnapshot` | Lab 2/src/raft/persister.go:60-64 | A fresh copy of the saved snapshot. |
| `Persisters.Supersede` | Lab 2/src/raft/persister.go:30-58 | A copy keeps the earlier contents when the original is saved to afterwards. |
| `Rpc.NextInv` | Lab 2/src/labrpc/labrpc.go:192-309 | Every disciplined step keeps the invariant that ties replies, handlers, saves, instances and persisters together. |
| `Rpc.AcknowledgedMeansPersisted` | Lab 2/src/labrpc/labrpc.go:264-291 | In every run in which servers are shut down before they are started, every save made by the handler of a positively answered request is in what every later instance started from, and in what the next one will start from. |
| `Rpc.SafeExactlyAfterShutdown` | Lab 2/src/kvraft/config.go:286-323 | Starting a server is safe, whatever disciplined steps follow, exactly if none of its instances is installed. |
| `Rpc.EarlyRestartLoses` | Lab 2/src/kvraft/config.go:255-323 | Whenever a start begins while an instance is installed, a save can be acknowledged and be missing from the next instance. |
| `Rpc.AtMostOneReply` | Lab 2/src/labrpc/labrpc.go:218-309 | In every run the handler of a request is started at most once, at most one reply is sent, and a positive one carries what the handler returned. |
| `Rpc.SavesStayApart` | Lab 2/src/kvraft/config.go:303-312 | In every run, what one instance saves does not change what another instance reads. |
| `Rpc.ShutdownFreezes` | Lab 2/src/kvraft/config.go:269-275 | While a server is shut down, what its old instances still save does not change what the next instance will start from. |
| `Rpc.NextDue` | Lab 2/src/labrpc/labrpc.go:247-291 | Once the handler has returned or the server was seen dead, nothing undoes that a reply is due; each step of the request brings it closer and no other step touches it. |
| `Rpc.OwnStepEnabled` | Lab 2/src/labrpc/labrpc.go:247-291 | Until the reply is sent, some step of the request is possible. |
| `Rpc.ReplyComes` | Lab 2/src/labrpc/labrpc.go:247-291 | Once the handler has returned or the server was seen dead, the request takes at most three more steps in any interleaving, and it can take no more only when its reply was sent. |
| `Rpc.PollNotices` | Lab 2/src/labrpc/labrpc.go:254-256 | While the handler runs, a disabled end or another or no installed instance is noticed by the next poll. |
| `Rpc.PollMeans` | Lab 2/src/labrpc/labrpc.go:254-256 | The wait is given up exactly if the end is disabled or the instance is not the installed one. |
| `Rpc.PositiveOnlyIfReachable` | Lab 2/src/labrpc/labrpc.go:264-291 | A reply becomes positive only while the end is enabled and the instance is the installed one, and then it is what the handler returned. |
| `Rpc.ConcludeMeans` | Lab 2/src/labrpc/labrpc.go:270-291 | A reply that arrived and is not dropped becomes positive exactly if the end is enabled and the instance is the installed one. |
| `Rpc.BeginMeans` | Lab 2/src/labrpc/labrpc.go:192-221 | A request is admitted exactly if its end is enabled and connected to a server with an instance, which is then the one it goes to. |
| `Rpc.DisabledNeverServed` | Lab 2/src/labrpc/labrpc.go:218-309 | In every run, a request begun on a disabled end is never dispatched and never answered positively. |

## Left out

- `raft.go`, the `kvraft`, `shardctrler` and `shardkv` servers and clients: assignment stubs without behaviour.
- Lab 1: sockets, HTTP and files over library code.
- `labgob`, JSON, net/rpc, the file system: values are passed as they are.
- Dispatch of a request to a service by reflection, byte counters and RPC counts in `labrpc.go`.
- `PartitionEvent`: the key/value model has none, so `CheckEvents` takes any function that keeps its promise.
- Descriptions of states, HTML and JavaScript in `visualization.go`.
- Logging, worker ids and the RPC server of the coordinator; the endless loop around the timeout check, of which one round
  is modelled.
- The remaining tester code in the `config.go` files, the tests, the `mrapps` plugins and the other programs under `main`.
- The FNV hash in `ihash`: any function of the key to a natural number.
- The order of the values given to the reduce function: the sequential program sorts unstably, so only their multiset is stated.
- Cached bitsets are kept as sequences of words, since the code never writes to a cached clone; a word is its 64 bits.
- The set of recorded lists in `checkParallel` is a set of pointers; here equal lists count once.
- The network's maps in `labrpc.go` are values of a state machine and not fields of an object, because every access to
  them is one step under the lock.
- Rpc.AcknowledgedMeansPersisted: holds for runs that shut a server down before starting it; `Rpc.SafeExactlyAfterShutdown`
  shows that this is exactly what is needed.
- MapReduceSystem.MeaningPreserved: holds while no timeout reclaims a task, or in clean runs; `MapReduceProgress.TimeoutsDecide`
  shows that one reclaim is too many without the latter.
- MapReduceProgress.CanFinish: says that a finishing continuation exists, not that a fair scheduler takes it.
- Rpc.ReplyComes: bounds the steps of the request and not the time that the timers take.
