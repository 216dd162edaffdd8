# Transaction engine: a Dafny model

The model covers the transaction engine of the second assignment (`a2/src/txn`)
under each of its concurrency-control schemes, and the thread launcher of the
first assignment (`a1/src`). The reference is the serial scheduler, which runs
one transaction after the other. For every other scheme the main result is that
each interleaving of its steps amounts to some serial run, and which one.

A run of a scheme is a sequence of steps. One step is one critical section, one
operation on an atomic container or one single-key access to storage; a step
that is not possible does nothing. The theorems hold for every sequence of
steps, so for every schedule of the scheduler thread and its workers and for
every workload. A transaction is its declared read and write sets together with
a function from the values it has read to a vote and a write buffer.

| file | what it holds |
|---|---|
| `Txns.dfy` | transactions, the serial reference, the concrete transaction types, what it means to lose no update |
| `TxnObjects.dfy`, `SerialScheduler.dfy` | storage, transaction object and serial processor as classes |
| `LockTable.dfy`, `LockManager.dfy`, `LockHistory.dfy` | what one operation on the lock table promises; both lock managers as classes over deques and counters; what any sequence of operations promises |
| `Locking.dfy`, `LockingTheorems.dfy`, `LockingQueues.dfy` | the locking scheduler and its workers as a state machine; its theorems on outcomes and progress; what its queues and lists hold and who waits for whom |
| `LockingScheduler.dfy`, `LockingRefinement.dfy` | the locking scheduler as a class with either manager, the proof that it takes only steps of the machine, and what a client who submits programs gets |
| `Occ.dfy`, `OccTheorems.dfy`, `OccDecisions.dfy` | optimistic control with serial validation, and exactly which attempts pass it |
| `ParallelOcc.dfy`, `ParallelOccTheorems.dfy`, `ParallelOccDecisions.dfy`, `ParallelOccProgress.dfy`, `PublishOrder.dfy` | optimistic control with parallel validation, exactly which attempts pass it, how it can always finish, and the order of its two last steps |
| `OccValidation.dfy` | the validation loops of both |
| `Versions.dfy`, `MvccStorage.dfy` | version lists; multiversion storage as a class |
| `Mvcc.dfy`, `MvccInvariant.dfy`, `MvccTheorems.dfy`, `MvccDecisions.dfy`, `MvccProgress.dfy`, `InitialRecords.dfy` | multiversion timestamp ordering with and without the snapshot variant, what each variant locks and checks, how it can always finish, and why records are initialised |
| `Requests.dfy`, `Launcher.dfy`, `LauncherTheorems.dfy` | requests on records, and the thread launcher |

`dafny verify dfyconfig.toml` checks the whole project.

## Where the code, its text and the model part ways

- The scheduler bodies for the optimistic and multiversion modes call the serial
  scheduler for now (`a2/src/txn/txn_processor.cc:271-319`), and the bodies of
  the lock managers and of multiversion storage are stubs. They are modelled
  from the pseudocode in `a2/README.md`, the contracts in
  `a2/src/txn/lock_manager.h`, the hints in `a2/src/txn/mvcc_storage.cc` and the
  traces in `a2/src/txn/lock_manager_test.cc`.
- The pseudocode for parallel validation erases a transaction from the active set
  before it updates the committed list (`a2/README.md:163-166`). Listed that way
  the protocol loses updates. `PublishOrder.SerializableExactlyWhenPublishedFirst`
  gives the losing run for every initial database and proves that publishing
  first is exactly what makes all runs serial. In the listed order, the runs that
  are quiet are serial: those in which no transaction enters the active set while
  a writer of one of its keys has left the set and is not yet in the committed
  list. The theorems of `ParallelOccTheorems` hold for either order, for the
  listed one under that condition.
- The text calls multiversion timestamp ordering not serializable
  (`a2/README.md:233-234`). With read marks on versions, as the version record
  provides for, it is serializable in timestamp order even without the snapshot
  variant, provided that every key with a mutex has an initial version.
  `InitialRecords.SerializableExactlyWhenInitialised` shows that this is exactly
  the condition. The failing configuration is one that initialisation rules out:
  it creates a mutex and a version together, and `InitialRecords.Start` proves
  that storage so constructed is an initial state that meets the condition.
- A comment says that outstanding requests never exceed the limit
  (`a1/src/launcher/thread_launcher.cc:9-13`). The thread is created before the
  launcher waits for the counter, so there can be one more;
  `LauncherTheorems.ExactBound` says so for every limit.
- The pseudocode does not say what becomes of an abort vote under the optimistic
  and multiversion schemes. The model validates first and then takes the branch
  of the serial scheduler: the transaction is returned as aborted and writes
  nothing.
- The hints do not give the read mark of a new version. The model uses the
  version's own timestamp.
- Nothing in the source calls `CheckReadWriteSets`. The lock calls demand that a
  transaction asks for each key once, so the locking model admits transactions
  with disjoint sets only; the other schemes have no such restriction.
- A transaction's wait counter becomes invalid when it releases a lock
  (`a2/src/txn/lock_manager.h:107-109`). The source does not say what a later
  request by the same transaction does to it. In the model it counts afresh: the
  counter is then the number of keys for which the transaction is queued and
  waits.

## Model

| member | source | states |
|---|---|---|
| Txns.DeclaredSets | a2/src/txn/txn_types.h:11-163 | the read and write set that each concrete type declares |
| Txns.PutDoes | a2/src/txn/txn_types.h:58-82 | a put commits and leaves its keys at the values given and every other key alone |
| Txns.ExpectDoes | a2/src/txn/txn_types.h:24-55 | an expectation commits if and only if all records it names exist with the values it names, and changes nothing either way |
| Txns.NoopDoes | a2/src/txn/txn_types.h:11-22 | commits and changes nothing |
| Txns.RmwDoes | a2/src/txn/txn_types.h:132-159 | commits, adds one modulo 2^64 to each record of its write set, a missing one counting as 0, and changes nothing else |
| Txns.PutThenExpect | a2/src/txn/txn_types_test.cc:25-53 | what was put is found by a later expectation unless a transaction between them declares one of the keys as a write |
| Txns.NoLostUpdates | a2/src/txn/txn_types.h:132-159 | running read-modify-write transactions one after the other raises every key by the number of them that declare it as a write, modulo 2^64, and changes no other key |
| Txns.NoLostUpdatesInAnyOrder | a2/src/txn/txn_types.h:132-159 | the same count for every permutation of the transactions |
| TxnObjects.Storage.constructor | a2/src/txn/storage.cc:30-36 | fresh storage holds 0 for the keys below 1000000 and nothing else |
| TxnObjects.Storage.Read | a2/src/txn/storage.cc:3-14 | returns the record if there is one and reports its absence otherwise |
| TxnObjects.Txn.Read | a2/src/txn/txn.cc:3-22 | returns what was fetched or written; has no effect after the vote |
| TxnObjects.Txn.Write | a2/src/txn/txn.cc:24-38 | buffers the value and makes it visible to later reads, and does nothing after the vote |
| TxnObjects.Txn.CheckReadWriteSets | a2/src/txn/txn.cc:40-49 | succeeds if and only if no key is in both sets |
| TxnObjects.Txn.Run | a2/src/txn/txn_types.h:11-163 | whatever order its loops take, the vote and buffer of each concrete type are the function of the values read that the schedulers are proved about |
| SerialScheduler.TxnProcessor.NewTxnRequest | a2/src/txn/txn_processor.cc:69-78 | the request joins the queue with an id larger than all before it |
| SerialScheduler.TxnProcessor.ExecuteTxn | a2/src/txn/txn_processor.cc:234-260 | reads both sets from storage, runs, and leaves vote and buffer of a lone run; records the start index before reading |
| SerialScheduler.TxnProcessor.ApplyWrites | a2/src/txn/txn_processor.cc:262-269 | storage is overridden by exactly the buffer |
| SerialScheduler.TxnProcessor.ServeNext | a2/src/txn/txn_processor.cc:119-147 | one turn of the loop: storage, status, committed list and results after the oldest request |
| SerialScheduler.TxnProcessor.RunSerialScheduler | a2/src/txn/txn_processor.cc:116-148 | drains the queue; storage, every decision and the committed list are those of the serial reference in arrival order |
| LockTable.GrantedIff | a2/src/txn/lock_manager.h:68-93 | a request is in the granted prefix exactly when it conflicts with nothing before it |
| LockTable.OwnersExclusiveOrShared | a2/src/txn/lock_manager.h:70-76 | owners are one exclusive holder or any number of shared holders, and there are none only for an empty deque |
| LockTable.GrantsPersist | a2/src/txn/lock_manager.h:49-54 | when a request leaves, every other holder keeps its lock |
| LockTable.NewGrantsExact | a2/src/txn/lock_manager.h:49-54 | the grants a release makes are exactly the new granted prefix minus the old one, and all of them were waiting |
| LockTable.NewGrantsInOrder | a2/src/txn/lock_manager.h:49-54 | whoever leaves, holder or waiting, the new grants come in the order of their requests in the queue before |
| LockTable.WokenInOrder | a2/src/txn/lock_manager.h:49-54 | so does what a release appends to the ready queue |
| LockTable.CancelMergesGroups | a2/src/txn/lock_manager_test.cc:157-188 | cancelling an exclusive request between two shared groups grants the second group, in queue order |
| LockTable.WaitsAfterRelease | a2/src/txn/lock_manager.h:107-110 | a release shortens the wait of exactly the new grantees, by one each |
| LockTable.WaitsAfterAcquire | a2/src/txn/lock_manager.h:33-47 | a request lengthens the wait of its own transaction by one if it is not granted, and nobody else's |
| LockTable.WokenWhenLastWaitEnds | a2/src/txn/lock_manager.h:102-110 | a release appends to the ready queue exactly those whose last wait it ends, each once |
| LockHistory.JoinsOnce | a2/src/txn/lock_manager.h:102-110 | over any sequence of requests, releases and cancels by others, a transaction joins the ready queue once if its wait ends and otherwise never |
| LockHistory.HoldersStay | a2/src/txn/lock_manager.h:49-54 | over any sequence of operations a holder stays one until it drops the key itself |
| LockHistory.OwnersInRuns | a2/src/txn/lock_manager.h:70-76 | after any sequence of operations the owners of a key are one exclusive holder or shared holders only |
| LockHistory.Play | a2/src/txn/lock_manager.h:20-66 | either manager, given any legal sequence of calls, goes through the moments that the three rows above speak of |
| LockManager.LockManagerB.ReadLock | a2/src/txn/lock_manager.h:33-39 | enqueues a shared request, reports whether it holds the lock, and keeps counters and deques in agreement |
| LockManager.LockManagerB.WriteLock | a2/src/txn/lock_manager.h:41-47 | the same for an exclusive request |
| LockManager.LockManagerB.Release | a2/src/txn/lock_manager.h:49-60 | releases or cancels, counts the new grantees down and appends those with nothing left to wait for, in the order of the old queue |
| LockManager.LockManagerB.Status | a2/src/txn/lock_manager.h:62-65 | reports the mode and exactly the owners, in queue order |
| LockManager.LockManagerA.WriteLock | a2/src/txn/lock_manager.cc:5-10 | enqueues an exclusive request and reports whether it is the owner's |
| LockManager.LockManagerA.ReadLock | a2/src/txn/lock_manager.cc:12-17 | asks for an exclusive lock |
| LockManager.LockManagerA.Release | a2/src/txn/lock_manager_test.cc:43-57 | passes the lock on only when the owner leaves, to the next in line |
| LockManager.LockManagerA.Status | a2/src/txn/lock_manager.cc:26-31 | unlocked exactly when nothing is queued, otherwise exclusive with the first in line |
| LockingTheorems.DeterministicDecisions | a2/src/txn/txn_processor.cc:150-232 | in every schedule each transaction that has run has read, voted and buffered what it would serially in arrival order |
| LockingTheorems.DeterministicStorage | a2/src/txn/txn_processor.cc:150-232 | once all have returned, storage is that of the serial scheduler in arrival order |
| LockingTheorems.CommittedListExplainsStorage | a2/src/txn/txn_processor.cc:185-214 | between commits storage is the committed list's writes over the initial storage, in whatever order workers finished; drained, that equals arrival order |
| LockingTheorems.FetchedValuesStay | a2/src/txn/txn_processor.cc:185-260 | as long as a transaction has not released a key, storage has what it fetched for the key, or its own write to it once that is applied |
| LockingTheorems.LocksExclude | a2/src/txn/lock_manager.h:68-93 | in every schedule no conflicting locks are held together, and none is held past an earlier conflicting request |
| LockingTheorems.Conserved | a2/src/txn/txn_processor.cc:150-232 | every submitted transaction is in exactly one place, once |
| LockingTheorems.RequestsInOrder | a2/src/txn/txn_processor.cc:69-78 | the request queue is strictly increasing in unique ids |
| Locking.WokenExactly | a2/src/txn/lock_manager.h:102-110 | a release makes ready exactly the waiting transactions that no earlier conflicting one stands in the way of any more |
| Locking.StepKeeps | a2/src/txn/txn_processor.cc:150-269 | every step keeps the invariant on lock table, queues, reads, storage and committed list |
| LockingTheorems.OldestHoldsItsLocks | a2/README.md:56-62 | the oldest unfinished transaction is not waiting and holds, in the lock table, every lock it has asked for and not given back |
| LockingTheorems.WaitsPointBackwards | a2/README.md:56-62 | whoever waits for a key waits for an older transaction with a conflicting request for it |
| LockingTheorems.Progress | a2/src/txn/txn_processor.cc:153-231 | while a transaction has not returned, some step is possible |
| LockingTheorems.EveryStepCounts | a2/src/txn/txn_processor.cc:153-231 | every step but a submission lowers a measure of the remaining work |
| LockingTheorems.Drains | a2/src/txn/txn_processor.cc:150-232 | from every reachable state the scheduler can finish, with the serial result |
| LockingTheorems.LockingLosesNoUpdate | a2/src/txn/txn_types.h:132-159 | a drained workload of increments has counted each one |
| LockingQueues.WaitsExactlyOnConflict | a2/README.md:56-62 | a transaction waits if and only if an earlier one still has a request for a key that the two cannot share, by their declared sets; readers share |
| LockingQueues.RequestModes | a2/src/txn/txn_processor.cc:159-175 | a request in the lock table is for a declared key, and is exclusive exactly for a key of the write set or when only exclusive locks exist |
| LockingQueues.FirstInFirstOut | a2/src/txn/txn_processor.cc:150-232 | in every run the request, ready and completed queues are first in, first out, and the committed list and the results grow at their end only |
| LockingQueues.WokenByArrival | a2/src/txn/lock_manager.h:49-54 | those that a release makes ready join the ready queue in the order of their unique ids |
| LockingQueues.CommittedExactly | a2/src/txn/txn_processor.cc:185-205 | the committed list holds exactly the transactions past their commit, once each, with what they wrote |
| LockingQueues.NothingHeldUp | a2/src/txn/txn_processor.cc:150-260 | running transactions can take any of their next steps whatever others do |
| LockingScheduler.TxnProcessor.AdmitNext | a2/src/txn/txn_processor.cc:155-183 | asking lock by lock leaves the lock table of one joint request; the transaction is ready if and only if it holds all |
| LockingScheduler.TxnProcessor.FinishNext | a2/src/txn/txn_processor.cc:185-218 | commit or abort by the vote, release read locks and then write locks, return: the whole new state, status of the transaction included |
| LockingScheduler.TxnProcessor.StartNext | a2/src/txn/txn_processor.cc:220-230 | the first ready transaction becomes a task of the pool |
| LockingScheduler.TxnProcessor.ExecuteTxn | a2/src/txn/txn_processor.cc:234-260 | a worker that takes any task of the pool records the start index, reads, and leaves vote and buffer of a run on current storage |
| LockingRefinement.AdmitTracks | a2/src/txn/txn_processor.cc:155-183 | admission by the class is a run of the machine |
| LockingRefinement.ExecuteTracks | a2/src/txn/txn_processor.cc:234-260 | so is a task |
| LockingRefinement.ConcludeTracks | a2/src/txn/txn_processor.cc:185-218 | so is the end of a transaction, whatever order its locks are released in |
| LockingRefinement.RunLockingScheduler | a2/src/txn/txn_processor.cc:150-232 | with either manager and workers that take tasks in any order, the scheduler loop ends, returns every transaction with its serial outcome and leaves the serial scheduler's storage |
| LockingRefinement.ProcessAll | a2/src/txn/txn_processor.cc:22-78 | constructing a processor, submitting any programs and running the loop gives the serial reference on fresh storage |
| Occ.StepKeeps | a2/README.md:83-121 | every step keeps the invariant on lists, serial values, reads and charges |
| OccTheorems.Serializable | a2/README.md:83-121 | every decided transaction read and decided what it would after the results before it, though reads interleave with half-applied commits |
| OccTheorems.StorageSerial | a2/README.md:100-107 | between commits storage is that of the serial run of the results |
| OccTheorems.StaleReadsAreNoticed | a2/src/txn/txn_processor.cc:236-253 | a value read is current unless a transaction committed since the start index, or the one being applied, declares the key as a write |
| OccTheorems.RestartsBounded | a2/README.md:100-120 | with n transactions submitted, none restarts n times |
| OccTheorems.EveryStepCounts | a2/README.md:83-121 | every step but a submission lowers a measure, restarts included |
| OccTheorems.Progress | a2/README.md:83-121 | while a transaction has not returned, some step is possible |
| OccTheorems.Drains | a2/README.md:83-121 | from every reachable state the scheduler can finish, with a serial result in which each transaction occurs once |
| OccTheorems.OccLosesNoUpdate | a2/src/txn/txn_types.h:132-159 | a drained workload of increments has counted each one |
| OccDecisions.RestartsExactlyOnOverlap | a2/README.md:89-120 | for every attempt in every run, from its beginning to its validation: it restarts if and only if a transaction that committed in between declares a write to a key of its read or write set, and otherwise ends by its own vote |
| OccDecisions.CommittedExactly | a2/README.md:100-107 | the committed list holds exactly the transactions returned with a commit, once each |
| OccDecisions.FirstInFirstOut | a2/README.md:83-121 | requests, restarts included, and completed transactions are served in order of arrival |
| OccDecisions.NothingHeldUp | a2/README.md:83-121 | running transactions can take any of their next steps whatever others do |
| OccValidation.SerialValidate | a2/README.md:96-98 | the loop succeeds if and only if nothing in the committed list from the start index on declares a write to a key of the read or write set, which is also the machine's verdict |
| OccValidation.ParallelValidate | a2/README.md:149-160 | the loops succeed if and only if neither the committed list, as far as it was read, nor the saved active set holds such a transaction, which is also the machine's verdict |
| ParallelOcc.StepKeeps | a2/README.md:134-183 | every step keeps the invariant, with several validators writing at once |
| ParallelOccTheorems.Serializable | a2/README.md:134-183 | every valid attempt read and decided what it would after the valid attempts that entered the active set before it, in every run that publishes first and in every quiet run of the listed order |
| ParallelOccTheorems.StorageSerial | a2/README.md:162-166 | whenever no one is in the middle of its writes, storage is that of this serial run |
| ParallelOccTheorems.DrainedSerial | a2/README.md:134-183 | drained, the order of entry is a serial order of all transactions that explains storage |
| ParallelOccTheorems.ParallelOccLosesNoUpdate | a2/src/txn/txn_types.h:132-159 | a drained workload of increments has counted each one |
| ParallelOccDecisions.FailsExactlyOnOverlap | a2/README.md:134-183 | for every attempt in every run and either publication order: it fails if and only if it overlaps with a write of someone who committed after its beginning, as far as it looks, or who was in the active set when it entered; otherwise its own vote decides |
| ParallelOccDecisions.ActiveExactly | a2/README.md:145-164 | the active set holds exactly those who have entered it and not left again |
| ParallelOccDecisions.CommittedExactly | a2/README.md:162-166 | the committed list holds exactly those who have published, once each |
| ParallelOccDecisions.FirstInFirstOut | a2/README.md:134-140 | requests, restarts included, are taken in order |
| ParallelOccProgress.NextStep | a2/README.md:134-183 | every transaction that a worker has in hand can be brought on, whatever others do |
| ParallelOccProgress.Progress | a2/README.md:134-183 | while a transaction has not returned, some step is possible |
| ParallelOccProgress.Drains | a2/README.md:134-183 | from every reachable state some continuation returns all transactions, with the serial result |
| PublishOrder.LosesAnUpdate | a2/README.md:163-166 | when the active set is left first, two increments can both return and raise the key by one, which no serial order does |
| PublishOrder.LostUpdateNotQuiet | a2/README.md:163-166 | in that run a transaction enters while a conflicting writer has left the active set and is not yet in the committed list |
| PublishOrder.SerializableExactlyWhenPublishedFirst | a2/README.md:163-166 | drained runs amount to serial runs if and only if the commit is published before the active set is left |
| Versions.FindsLatest | a2/src/txn/mvcc_storage.cc:50-51 | scanning the list finds the version with the largest id at or below the timestamp, and none exactly when there is none |
| Versions.CheckIsExact | a2/src/txn/mvcc_storage.cc:55-68 | the check passes if and only if inserting changes what no later reader has read |
| Versions.AcceptedWriteKeepsReads | a2/src/txn/mvcc_storage.cc:70-81 | a write that passes leaves every earlier read by others as it was |
| Versions.AcceptedWriteKeepsOrderly | a2/src/txn/mvcc_storage.cc:76-80 | version ids stay strictly decreasing and read marks within bounds |
| MvccStorage.MVCCStorage.constructor | a2/src/txn/mvcc_storage.cc:3-12 | every key below 1000000 has one version 0 at timestamp 0 and a free mutex, and no other key has either |
| MvccStorage.MVCCStorage.Read | a2/src/txn/mvcc_storage.cc:44-53 | the value of the latest version at or below the timestamp, raising its read mark and nothing else |
| MvccStorage.MVCCStorage.CheckKey | a2/src/txn/mvcc_storage.cc:55-68 | passes if and only if that version has not been read at a later timestamp |
| MvccStorage.MVCCStorage.Write | a2/src/txn/mvcc_storage.cc:70-81 | inserts the version in its place and changes no other list |
| MvccInvariant.StepKeeps | a2/README.md:197-226 | every step keeps the invariant on version lists, marks, mutexes, checks and reads |
| MvccInvariant.ValidatedTooLate | a2/README.md:205-209 | the writes of an attempt that passes all its checks change nothing that anyone has read |
| MvccTheorems.Serializable | a2/README.md:197-226 | at every moment every attempt that has run has read and decided what it would after the validated attempts with smaller timestamps |
| MvccTheorems.EverySnapshotIsSerial | a2/src/txn/mvcc_storage.cc:50-51 | the versions at or below any timestamp are the database of the serial run up to it |
| MvccTheorems.DrainedSerial | a2/README.md:240-262 | drained, timestamp order is a serial order of all transactions that explains the newest versions, in both variants |
| MvccTheorems.MvccLosesNoUpdate | a2/src/txn/txn_types.h:132-159 | a drained workload of increments has counted each one |
| MvccDecisions.LocksGuarded | a2/README.md:205-209 | a mutex is held only for an attempt that has the key in its write set or, in the snapshot variant, in its read set |
| MvccDecisions.MutexesFromCheckToRelease | a2/README.md:248-256 | from the start of its checks until its first release an attempt has exactly the mutexes of its write set, in the snapshot variant of both sets |
| MvccDecisions.ChecksGuarded | a2/README.md:205-209 | only those keys are checked, and a check fails if and only if a later reader has seen the version that the attempt would supersede |
| MvccDecisions.ConflictExactly | a2/src/txn/mvcc_storage.cc:55-68 | such a conflict exists if and only if an attempt with a later timestamp has read the key and found nothing newer than the attempt that checks |
| MvccDecisions.WritesOnlyUnopposed | a2/README.md:205-208 | an attempt starts to write only when no such key has a conflict at that moment and its vote is to commit |
| MvccDecisions.FailsOnlyOnConflict | a2/README.md:206-213 | an attempt starts to fail only upon a conflict on such a key |
| MvccDecisions.ReadersNeverRestart | a2/README.md:205-209 | without the snapshot variant a transaction with an empty write set never restarts, in any run |
| MvccDecisions.WaitsForMutexesOnly | a2/README.md:240-262 | attempts are held up by mutexes only |
| MvccTheorems.NoCircularWait | a2/README.md:248-251 | no chain of attempts waiting for each other's mutexes comes back to where it began |
| MvccTheorems.MutexesGivenBack | a2/README.md:250-256 | the recorded holder of a mutex is exactly the attempt that took it and has not given it back; one that has ended or restarted has none, and a drained run holds none |
| MvccProgress.Progress | a2/README.md:240-262 | while a transaction has neither committed nor aborted, some step is possible |
| MvccProgress.Drains | a2/README.md:240-262 | from every reachable state some continuation ends the same transactions, with the serial result, restarted attempts included |
| InitialRecords.LosesAnUpdate | a2/src/txn/mvcc_storage.cc:3-12 | what the initial version prevents: two increments of a key with a mutex and without one can both commit and leave 1, which no serial order does |
| InitialRecords.SerializableExactlyWhenInitialised | a2/src/txn/mvcc_storage.cc:3-12 | drained runs amount to serial runs if and only if every key with a mutex has an initial version |
| InitialRecords.Start | a2/src/txn/mvcc_storage.cc:3-12 | constructed storage is an initial state of the machine in which every key with a mutex has a version, so every run from it that ends is serial |
| Requests.Database.DoWrite | a1/src/txn/request.cc:62-73 | adds the updates to every field of one record, modulo 2^64, and leaves the others alone |
| Requests.Database.Txn | a1/src/txn/request.cc:82-94 | performs exactly the writes named, in order |
| Requests.SequentialFields | a1/src/db_start.cc:160-161 | a sequential run adds to each field the sum of what the requests add to it, modulo 2^64 |
| Launcher.StepKeeps | a1/src/launcher/thread_launcher.cc:29-139 | every step keeps counter, argument records and record values in balance |
| LauncherTheorems.Accounting | a1/src/launcher/thread_launcher.cc:49-62 | counter plus requests let through equals limit plus requests finished; at most limit outstanding on return, at most one more inside |
| LauncherTheorems.ExactBound | a1/src/launcher/thread_launcher.cc:9-13 | m bounds the outstanding requests of all runs if and only if m exceeds the limit |
| LauncherTheorems.FreedOnceAfterEnd | a1/src/launcher/thread_launcher.cc:74-85 | each argument record is on the list, about to be freed or freed, once, and is freed only after its thread has ended |
| LauncherTheorems.CallFrees | a1/src/launcher/thread_launcher.cc:74-85 | a call has freed, once each, all records that were on the list before it took the list, when it returns |
| LauncherTheorems.NextCallFrees | a1/src/launcher/thread_launcher.cc:74-85 | every record handed back has been freed exactly once when some later call has returned |
| LauncherTheorems.RestIsListed | a1/src/launcher/thread_launcher.cc:74-85 | at rest, the record of every ended request is either on the list or freed |
| LauncherTheorems.WorkerMoves | a1/src/launcher/thread_launcher.cc:104-139 | a worker that has not ended can always take its next step |
| LauncherTheorems.Progress | a1/src/launcher/thread_launcher.cc:53-85 | inside the call some step is always possible: the launching thread never waits in vain |
| LauncherTheorems.EveryStepCounts | a1/src/launcher/thread_launcher.cc:53-85 | every step but a new issue lowers a measure, so every schedule ends the call |
| LauncherTheorems.Settles | a1/src/launcher/launcher.cc:52-61 | from every reachable state some continuation ends the call and executes every issued request |
| LauncherTheorems.SameAsSequential | a1/src/db_start.cc:153-164 | when the executed count has caught up, every request has been carried out and the records are those of a sequential run |

## Left out

- Machine width of unique ids, timestamps and counters: they are unbounded; record values, storage values and increments are modulo 2^64.
- Iteration order of `std::set`: loops take keys in an arbitrary order, which covers the ascending one; only mutexes are taken in ascending order, since that order matters.
- The order in which requests reach workers in the parallel and multiversion schemes is that of the queue; when a worker gets a turn is arbitrary.
- A failed attempt under the optimistic schemes keeps its transaction's place number in the model instead of a new unique id, which nothing in those schemes reads.
- A bound on restarts under parallel validation and multiversion timestamp ordering: some step is always possible and some continuation finishes everything, but no measure that every step lowers is claimed, since attempts can make each other restart.
- LockingRefinement.RunLockingScheduler: a task runs from beginning to end between two rounds of the scheduler; the machine in `Locking.dfy` covers interleavings within a task.
- Deques of the lock table and version lists are values in map fields instead of heap objects, so aliasing between their entries is not modelled.
- Locking the records of a request (`a1/src/txn/request.cc:96-108` is empty): each record write of a request is one atomic step.
- The unused bytes of a record between its ten fields are not modelled.
- Process and pool launchers: their coordination code is missing.
- Thread pool internals, condition variables and shutdown through `stopped_`: only their effect as steps and enabling conditions is modelled.
- `timestamps_` of storage, busy loops, throughput and other wall-clock values.
- `RunScheduler`, which has no case for the snapshot variant: that protocol is modelled directly.
- Cloning, ownership and destruction of transaction objects, load generators and argument parsing.
