# Verified model of an event-sourcing toolkit

The repository is a toolkit for event-sourced applications: aggregates that decide and
evolve, event stores under optimistic concurrency (in memory, SQL, Redis), snapshots,
idempotent execution, projections, process managers, schema upcasting and a connection
pool. This project models those parts as protocols over one abstract append-only log and
proves what they keep in every run.

The shape is the same throughout. A protocol is a value-level state machine: a `Step`
function with one action per atomic step (a critical section, a statement, a commit, one
call to a store), a `Run` over arbitrary action sequences, an invariant kept by every step,
and theorems about all runs. A disabled action changes nothing, so a run is any
interleaving of any number of participants, and failures and crashes are actions like any
other. Code that changes state in place is a class whose methods are proved against the
same functions; loops are methods with invariants.

| module | what it models |
|---|---|
| `EventLog` | the abstract log: streams, revisions, sequences, the atomic append |
| `MemoryStore` | the in-memory store with its per-stream indices and binary search |
| `Aggregates`, `BankAccount` | decide/evolve, replay loops, the serial reference execution, the example account |
| `Repository`, `RepositoryStore` | load, decide, append and snapshots interleaved; the repository's own methods |
| `SqlTable`, `SqlProtocol` | rows under unique constraints; the SQL append and its idempotent form, with the pool's retry |
| `SqliteStore` | the idempotent append as one immediate transaction |
| `LeaseIdempotency` | the idempotency store and the unfenced reserve/execute/save protocol |
| `Pool` | the connection pool's critical sections |
| `Paging` | draining the global feed and a scored index page by page |
| `Projection`, `ProjectionRunners` | persisted projection as a protocol; the runners' loops and error paths |
| `Text`, `RedisValues`, `Resp`, `FlatHash`, `RedisEvents`, `RedisStore` | decimal text and UTF-8, reply values, RESP2, the flat hash batch, the fields of a stored event, the append script and its client |
| `ProcessManager` | checkpointed dispatch through a deduplicating bus |
| `Upcast` | schema-version chains over arbitrary registries |

`dafny verify dfyconfig.toml` checks everything.

## Where the code does not do what one might expect

Each of these is stated and proved as part of the model.

- An SQL append that lost a race between its revision read and its insert need not do what
  the atomic append would do at the insert. It differs in two cases and no others
  (`SqlProtocol.CommitsAsAtomicExactly`): with events and the expectation `Any` it fails,
  although the atomic append would succeed (`SqlProtocol.AnyLosesRace`); without events, under
  an idempotency key and any other expectation, it completes its record and succeeds, although
  the atomic append would refuse (`SqlProtocol.EmptyWinsRace`).
- Lease-based idempotency can commit one extra batch for every reclaimed lease, for every
  entry removed from outside, for every removal that took effect although it reported a
  failure, and for every append that committed although it reported a failure. The bound
  counts all four (`LeaseIdempotency.CommitBound`) and is attained for any four counts, with
  one clock that never goes back and full leases (`LeaseIdempotency.BoundAttained`).
- Dropping a read model and resetting its checkpoint under a running runner can lose events
  below the checkpoint. It cannot if and only if every runner has what it is about to claim
  in its own buffer (`Projection.RebuildExactly`); stopped runners qualify, a runner between
  its flush and its save does not (`Projection.RebuildRaceSkips`).
- Dispatch keys of two events can be ambiguous, if and only if one event id ends in a
  separator and the other event id (`ProcessManager.AmbiguousExactly`); then, and only then,
  a delivery can succeed although its command never ran (`ProcessManager.PromisedExactly`).

## Model

| member | source | states |
|---|---|---|
| EventLog.StreamRevisions | src/memory.rs:230-253 | in any history whose revisions are ranks, the k-th event of a stream has revision k + 1 and is an event of the log |
| EventLog.AppendMeaning | src/memory.rs:194-262 | an append succeeds exactly if the expected revision matches; it then extends the addressed stream by what it returns and no other; a failure leaves every stream alone |
| EventLog.AppendKeepsRanked | src/memory.rs:194-262 | whatever the expectation, an append keeps revisions equal to ranks within streams |
| EventLog.AfterIsSuffix | src/memory.rs:43-52 | with sequences 1..N, filtering the feed past a position is taking a suffix |
| MemoryStore.PositionsRead | src/memory.rs:14-23 | the k-th listed position of a stream holds its k-th event, and positions ascend |
| MemoryStore.PositionsComplete | src/memory.rs:14-23 | a position is listed for an id exactly if the event there belongs to it |
| MemoryStore.CommitKeepsInvariant | src/memory.rs:230-262 | committing a batch keeps indices exact, sequences consecutive and revisions equal to ranks |
| EventLog.AfterRevisionIsSuffix | src/event_store.rs:106-116 | the default filter by revision returns exactly the stream from that revision on, or nothing beyond its end |
| MemoryStore.InMemoryEventStore.Append | src/memory.rs:194-262 | log and result are those of the atomic append with sequences from the counter; all index invariants are kept |
| MemoryStore.InMemoryEventStore.PushBatch | src/memory.rs:230-262 | the batch loop adds one sealed envelope and one index per event, consecutively |
| MemoryStore.InMemoryEventStore.Load | src/memory.rs:160-173 | reading through the index equals filtering the global log by id |
| MemoryStore.InMemoryEventStore.LoadAfterRevision | src/memory.rs:174-192 | equals the stream from the revision on |
| MemoryStore.InMemoryEventStore.FirstIndexAfter | src/memory.rs:43-52 | what binary search cuts off is exactly what was already read: the rest equals the filtered feed |
| MemoryStore.InMemoryEventStore.LoadGlobalAfter | src/memory.rs:264-268 | equals the feed filtered past the position |
| MemoryStore.InMemoryEventStore.LoadGlobalAfterLimited | src/memory.rs:270-279 | equals the filtered feed cut at the limit |
| MemoryStore.InMemoryEventStore.StreamCount | src/memory.rs:138-142 | the number of distinct ids that occur in the log |
| MemoryStore.InMemoryEventStore.Clear | src/memory.rs:144-151 | an empty store with its invariants restored |
| Aggregates.ApplyEnvelopes | src/aggregate.rs:83-93 | the replay loop is the left fold of apply over the payloads, ending at the last revision |
| Aggregates.ReplayRawEvents | src/aggregate.rs:99-110 | raw replay is the fold of all events, with revision equal to their number |
| Aggregates.FullReplayRevision | src/aggregate.rs:83-93 | a full replay ends at the revision equal to the stream length |
| Aggregates.SerialInvariant | src/aggregate.rs:71-80 | a state predicate kept by handle-then-apply holds after every serial run of commands |
| BankAccount.BalanceIsNetFlow | examples/bank_account.rs:71-91 | for every event history the balance is deposits minus withdrawals |
| BankAccount.HandleKeepsSolvent | examples/bank_account.rs:93-142 | an accepted command never leaves a negative balance or an open account without identity |
| BankAccount.OpenExactly | examples/bank_account.rs:71-91 | an account is open exactly if it was opened at some time and not closed since |
| BankAccount.AcceptedExactly | examples/bank_account.rs:93-142 | exactly which commands are accepted, which error refuses the others, and what an accepted one does to the account |
| Repository.Serializable | src/repository.rs:181-243 | in every interleaving each stream is the concatenation of batches, each equal to handle on the fold of everything before it, and a replay is the serial state |
| Repository.LoadedStatesGood | src/repository.rs:181-243 | any predicate kept by handle-then-apply holds of every state any client ever loads or keeps after a commit |
| Repository.SnapshotTransparent | src/repository.rs:247-287 | loading through a snapshot, however stale and however many appends came between, returns exactly the full replay |
| Repository.SnapshotRevisionMonotone | src/snapshot.rs:207-230 | the stored snapshot revision of a stream never decreases in any run |
| Repository.NewestSnapshotKept | src/snapshot.rs:207-230 | the snapshot store holds the newer of the stored and the offered state, the offered one if they are equally new, and no other stream is touched |
| Repository.UndisturbedExecute | src/repository.rs:209-243 | after any history, a client with nobody in between, loading fully or through a snapshot, gets the domain error and changes nothing, or appends exactly its events and holds the replay of the extended stream |
| Repository.PastPlusTail | src/repository.rs:247-287 | any past state plus the events after its revision is the present state |
| Repository.CommitExtendsSerial | src/repository.rs:181-243 | a commit at the loaded revision is the next step of the serial run, for the addressed stream and every other |
| Repository.CommitterState | src/repository_support.rs:55-68 | the state kept after a commit, updated with the committed events only, is the serial state after the command |
| Repository.StepKeepsInv | src/repository.rs:181-311 | every step of every client keeps streams serial and all loaded or stored states past states |
| RepositoryStore.RepositoryOf.Load | src/repository.rs:124-134 | the full replay of the stream, at its length |
| RepositoryStore.RepositoryOf.LoadWithSnapshot | src/repository.rs:247-287 | snapshot state advanced over the tail read from the store |
| RepositoryStore.RepositoryOf.ExecuteReturningState | src/repository.rs:212-243 | uninterrupted, the only failure is the domain error, which writes nothing; success appends exactly the decided events and returns the state a fresh replay would give |
| RepositoryStore.InMemorySnapshotStore.SaveSnapshot | src/snapshot.rs:207-230 | refuses exactly the snapshots older than the stored one and otherwise stores the offered one |
| RepositoryStore.TailRead | src/memory.rs:174-192 | the store read after a revision is the filter by revision that the snapshot load is specified with |
| RepositoryStore.BankNeverOverdrawn | examples/bank_account.rs:71-142 | no interleaving of any number of clients ever shows an overdrawn account |
| SqlTable.MaxRevisionIsLength | src/postgres.rs:1164-1182 | with revisions equal to ranks, MAX(revision) is the stream length |
| SqlTable.ClashIffStale | src/schema.rs:330-342 | the unique constraint rejects a non-empty batch exactly if the revision it was prepared with is out of date |
| SqlTable.LoadIsStream | src/postgres.rs:319-345 | rows of a stream in ascending revision order can only be the stream in commit order |
| SqlTable.InsertKeepsUnique | src/schema.rs:330-342 | inserting fresh distinct event ids keeps the event id constraint |
| SqlTable.InsertMeaning | src/postgres.rs:919-1041 | an insert succeeds exactly if no revision it would take is taken and its event ids are new and distinct; a taken revision is the concurrency error, a taken id the backend error, and with both the database picks |
| SqlTable.EventsTable.MatchSequences | src/postgres.rs:919-1041 | matching returned (revision, sequence) pairs by revision gives every event its own sequence, in whatever order the database returned them |
| SqlTable.EventsTable.InsertPrepared | src/postgres.rs:919-1041 | the insert adds exactly the prepared rows with their assigned sequences or nothing, with the error its unique violation maps to |
| SqlProtocol.RevisionsExact | src/postgres.rs:382-420 | in every run the revisions of every stream are exactly 1..n, and MAX(revision) is n |
| SqlProtocol.RefinesAtomicAppend | src/postgres.rs:382-420 | for every action of every run: an insert changes nothing, or commits one whole batch (rows, record and report) exactly as the atomic append would at that very moment, or, for a keyed call without events, as it would have at the revision read; the revision read refuses, or answers an empty plain append, exactly as the atomic append does then; nothing else changes rows |
| SqlProtocol.CommitsAsAtomicExactly | src/postgres.rs:641-757 | an insert whose events are not stored yet commits or fails as the atomic append would at that moment, if and only if the stream has not grown since the revision read, or the call has both events and an expectation, or it has neither |
| SqlProtocol.EmptyWinsRace | src/postgres.rs:707-757 | a run in which a keyed call without events, expecting an empty stream, is committed and told so after another session has appended to the stream, although the atomic append would refuse it |
| SqlProtocol.AnyLosesRace | src/postgres.rs:382-420 | a run in which an append that expects Any loses a race and fails, although the atomic append would succeed at that moment |
| SqlProtocol.LoserChangesNothing | src/postgres.rs:1213-1229 | an insert of at least one event prepared with an outdated revision changes nothing; unless its events are stored already the caller gets a concurrency error, of the kind the atomic append gives except for Any |
| SqlProtocol.EmptyAlwaysCommits | src/postgres.rs:707-757 | an insert without events (a keyed call) completes its record and commits, however outdated its revision read |
| SqlProtocol.WinnerCommits | src/postgres.rs:919-1041 | an insert at the present revision with events not yet stored commits all of them, and is told so unless the commit is hidden |
| SqlProtocol.InsertFacts | src/postgres.rs:641-757 | what every insert can rely on: a read never ahead of the table, a satisfied expectation, and on a first try events that are not stored |
| SqlProtocol.RetryAtMostOnce | src/pool.rs:444-471 | with the retry after a commit that is hidden, or that the server makes only while the retry is under way, no event id is stored twice, every batch is stored completely or not at all, and stored whenever the caller of a plain append was told so |
| SqlProtocol.IdempotentExactlyOnce | src/repository.rs:446-508 | an unpurged key has no record and no commit, or one commit and a record equal to it; every caller answered for the key got that batch |
| SqlProtocol.CompletedKeyAnswers | src/postgres.rs:664-676 | whoever calls under a completed key, the retry after a hidden commit included, is told the recorded batch, for an unpurged key the one batch committed under it, and nothing changes |
| SqlProtocol.UndisturbedCall | src/postgres.rs:641-757 | a call with nobody in between returns the recorded batch of a completed key and changes nothing; otherwise it is the atomic append, with its error, and its record under the key |
| SqlProtocol.ReserveAnswers | src/postgres.rs:697-717 | a reservation is told the key is pending if a record appeared since the lookup, waits while another transaction holds the key, and holds it otherwise |
| SqlProtocol.LookupAnswers | src/postgres.rs:594-638 | a caller that polls a key reads the record of a completed key and nothing otherwise |
| SqlProtocol.PurgeMeaning | src/idempotency.rs:288-302 | a purge takes exactly one completed record, and no call, event or pending key with it |
| SqlProtocol.OpenKeyGoesOn | src/postgres.rs:664-697 | a call whose key has no completed record goes on to reserve it; a pending row, which is never visible, would be reported as pending |
| SqlProtocol.FailureAnswers | src/pool.rs:444-471 | a transport error starts the same call over once at most, and then fails it; its transaction holds no key afterwards |
| SqlProtocol.PendingNeverVisible | src/postgres.rs:594-638 | no committed record is ever pending |
| SqlProtocol.StepKeepsInv | src/postgres.rs:594-757 | every step of every session keeps rows, records, locks and sessions consistent |
| SqlProtocol.CommitKeepsInv | src/postgres.rs:641-757 | a commit with or without a lost acknowledgement keeps the whole invariant |
| SqlProtocol.DetachKeepsInv | src/pool.rs:444-471 | a transaction that outlives its connection, its locks kept and its commit still possible, keeps the invariant together with the retry that starts beside it |
| SqliteStore.SqliteEventStore.AppendIdempotent | src/sqlite.rs:572-774 | the transaction, with its row-by-row inserts and rollbacks, is one atomic step: look up, or check and append and record, or nothing |
| SqliteStore.NextInsert | src/sqlite.rs:572-774 | row-by-row uniqueness checks add up to the check on the whole batch |
| SqliteStore.SecondCallReturnsFirst | src/sqlite.rs:572-774 | the call right after a success with the same key returns the first batch and changes nothing, whatever its other arguments |
| SqliteStore.ExactlyOnce | src/sqlite.rs:572-774 | over any sequence of calls with any keys and any purges: an unpurged key has no record and no batch, or one batch, which is its record and every answer given for it; rows stay ranked, with unique event ids, and are exactly the committed batches |
| SqliteStore.CommitKeepsInv | src/sqlite.rs:572-774 | a first success for a key keeps rows, records, commits and answers in agreement |
| SqliteStore.FailureLeavesNothing | src/sqlite.rs:572-774 | a failed call leaves no reservation and no row; an unknown key succeeds exactly if revision and event ids allow it |
| SqliteStore.FailureReason | src/sqlite.rs:572-774 | why a call fails: a pending record whose lease runs (or is unusable), an unusable record, the error of the revision check, or a duplicate event id, in that order |
| LeaseIdempotency.InMemoryIdempotencyStore.ReserveWithLease | src/idempotency.rs:399-430 | grants a key exactly if it is free or its lease ran out, and touches no other key |
| LeaseIdempotency.InMemoryIdempotencyStore.Heartbeat | src/idempotency.rs:432-449 | extends the lease exactly for the owner of a pending entry |
| LeaseIdempotency.InMemoryIdempotencyStore.Save | src/idempotency.rs:476-489 | completes the key with the value and touches no other key |
| LeaseIdempotency.InMemoryIdempotencyStore.Remove | src/idempotency.rs:491-498 | frees the key and touches no other key |
| LeaseIdempotency.InMemoryIdempotencyStore.ExpireStalePending | src/idempotency.rs:451-459 | drops and counts exactly the pending entries whose lease ran out |
| LeaseIdempotency.InMemoryIdempotencyStore.ExpireCompletedBefore | src/idempotency.rs:461-474 | drops and counts exactly the completed entries older than the cutoff |
| LeaseIdempotency.SaveWithRetry | src/repository_support.rs:73-92 | reports success exactly if one of three attempts did; the result is stored if any took effect |
| LeaseIdempotency.ReleaseWithRetry | src/repository_support.rs:95-139 | reports success exactly if one of three attempts did; the key is free if any took effect |
| LeaseIdempotency.ReserveMeaning | src/idempotency.rs:399-430 | a key is granted exactly if it is free or its lease ran out, to the millisecond |
| LeaseIdempotency.TakenKeyIsNotGranted | src/repository.rs:362-388 | in every state, while the key is completed or its lease runs, no poll and no reservation lets an executor run the command; who polls a completed key returns its result, who polls a running lease waits |
| LeaseIdempotency.OpenKeyIsGranted | src/repository.rs:362-388 | a free key, or one whose lease ran out, goes to whoever asks first, under a full lease |
| LeaseIdempotency.HeartbeatMeaning | src/idempotency.rs:432-449 | a heartbeat moves the end of the lease of its own owner and nothing else |
| LeaseIdempotency.SecondCallGetsFirstResult | src/repository.rs:348-415 | an undisturbed call commits its batch and returns it, and a call after it returns the same batch without running the command |
| LeaseIdempotency.SaveMeaning | src/repository_support.rs:73-92 | each of up to three saves completes the key if it takes effect, and the caller is told Ok exactly if one reports success |
| LeaseIdempotency.ReleaseMeaning | src/repository_support.rs:95-139 | each of up to three releases frees the key if it takes effect, and the caller is told of the failure |
| LeaseIdempotency.CommitBound | src/repository.rs:348-415 | in every run the batches committed under a key number at most one more than reclaims, outside removals, hidden removals and hidden commits together |
| LeaseIdempotency.OwnStepBalances | src/repository.rs:348-415 | whatever one executor step adds to commits made or still owed it pays for in the allowance |
| LeaseIdempotency.RunResultsCommitted | src/repository.rs:348-415 | every stored, held or returned result was committed under the key |
| LeaseIdempotency.AtMostOneBatch | src/repository.rs:348-415 | without those four events there is at most one batch and every successful caller gets it |
| LeaseIdempotency.BoundAttained | src/repository.rs:348-415 | for any four counts some run, with a clock that never goes back and leases of the default length, has exactly those reclaims, outside removals, hidden removals and hidden commits, and commits as many batches and one |
| LeaseIdempotency.CostOfHiddenRemoval | src/repository_support.rs:95-139 | a release that took effect but reported failure costs a batch: its repetition frees the key of the next holder |
| LeaseIdempotency.CostOfHiddenCommit | src/repository.rs:385-409 | an append that committed but reported failure costs a batch |
| LeaseIdempotency.CostOfOutsideRemoval | src/idempotency.rs:491-498 | an entry removed from outside costs a batch |
| LeaseIdempotency.CostOfReclaim | src/idempotency.rs:399-430 | a reclaimed lease costs a batch |
| Pool.OwnershipAndCapacity | src/pool.rs:356-410 | in every interleaving each connection is in one place only, leased counts leases, connects in flight and handoffs, and the pool never exceeds its size |
| Pool.NoUnderflow | src/pool.rs:109-122 | no decrement of leased ever underflows |
| Pool.LeaseIsExclusive | src/pool.rs:356-410 | from a pass of acquire or from a wait, a thread leaves with a connection nobody else holds, a slot within capacity, or nothing; a connection from the idle set passed validation, one that was handed over is the first in the queue |
| Pool.BrokenNeverReturns | src/pool.rs:234-243 | a connection dropped as broken is never leased again, in any continuation of any run |
| Pool.SoundComesBack | src/pool.rs:167-187 | a sound connection is leased by the next pass that finds it usable, or by the next to wake if nothing is queued before it |
| Pool.DropMeaning | src/pool.rs:167-187 | a dropped lease: broken, it is nowhere and its place is free; sound, it is last in the queue if someone waits, keeping its place, and on top of the idle stack otherwise |
| Pool.AcquireMeaning | src/pool.rs:356-402 | a pass leases the topmost usable idle connection, or, with none, goes by the places left: connect, fail without a factory, time out, wait |
| Pool.WakeMeaning | src/pool.rs:402-412 | a woken thread takes the first connection handed over, and makes another pass without one |
| Pool.ConnectMeaning | src/pool.rs:376-387 | a connect attempt ends with a connection the pool never had, or with its place free again |
| Pool.StepKeepsValid | src/pool.rs:167-187 | every critical section keeps ownership, counting and capacity |
| Pool.PoolShared.PopUsable | src/pool.rs:189-199 | pops idle connections until one passes validation; the dead ones are gone |
| Pool.PoolShared.TryAcquire | src/pool.rs:356-410 | one pass under the lock is the acquire step and keeps the invariant |
| Pool.PoolShared.Woken | src/pool.rs:356-410 | after a wait, for whatever reason it ended: a handoff first, otherwise another pass |
| Pool.PoolShared.CommitConnect | src/pool.rs:89-108 | a committed slot becomes a lease without changing the count |
| Pool.PoolShared.DropPendingSlot | src/pool.rs:109-122 | a dropped slot gives its place back |
| Pool.PoolShared.DropLeaseOf | src/pool.rs:234-243 | a dropped lease goes to a waiter, to idle, or (broken) out of the pool |
| Paging.LoadGlobalAfter | src/event_store.rs:167-189 | terminates against any store; its answer is the pages it was given up to the first that does not ask for more, or the error of the first call that failed; on a fixed feed it is the one-shot read |
| Paging.LoadIndexedSequences | src/redis.rs:505-555 | terminates against any server; its answer is the members of the pages it was given, or the error of the first call that failed; on a fixed index it is the one-shot limited read |
| Paging.LogPageMoves | src/event_store.rs:167-189 | a page of a fixed feed continues where the last one ended, advances the cursor, and is short only at the end |
| Paging.PageReachesEnd | src/redis.rs:505-555 | pages never run past the requested end and a short one reaches it |
| Projection.NeverSkips | src/projection.rs:236-255 | in every run whose rebuilds the runners survive, with failures and crashes anywhere and several runners on one key, every event at or below the stored checkpoint is in the durable read model, and the checkpoint never passes the feed |
| Projection.CheckpointOnlyReset | src/projection.rs:615-626 | along every stretch of a run without a reset or rebuild the checkpoint only moves forward |
| Projection.Interruptions | src/projection.rs:622-626 | a reset takes the checkpoint only; a runner that gives up keeps its buffer, one that crashes loses it, and nobody else loses anything |
| Projection.RebuildExactly | src/projection.rs:622-626 | dropping the read model loses nothing below the checkpoint in any continuation if and only if every runner has what it is about to claim in its own buffer |
| Projection.SkipAfterRebuild | src/projection.rs:236-255 | a runner that does not survive a rebuild can be driven, in a few steps, to save a checkpoint above a lost event |
| Projection.StepKeepsInv | src/projection.rs:307-322 | every step of every runner keeps what its phase promises about the read model |
| Projection.RebuildRaceSkips | src/projection.rs:622-626 | a reachable case: a rebuild between a flush and a save loses an event below the checkpoint |
| ProjectionRunners.ApplyProjectionEvents | src/projection.rs:211-234 | applies events up to the first failure, reports how many, the last sequence among them, and the failure |
| ProjectionRunners.AppliedCountIsFirst | src/projection.rs:211-234 | everything before the reported count succeeded and the event at it, if any, failed |
| ProjectionRunners.FinishBatch | src/projection.rs:257-277 | succeeds exactly without failures; which of several failures is reported, in every combination |
| ProjectionRunners.InMemoryProjectionRunner.RunBatch | src/projection.rs:508-542 | a failed load changes nothing; otherwise one in-memory batch |
| ProjectionRunners.InMemoryProjectionRunner.FinishInMemoryBatch | src/projection.rs:344-365 | flush, then move the checkpoint, then report the apply failure |
| ProjectionRunners.InMemoryProjectionRunner.CatchUp | src/projection.rs:173-201 | terminates against any store; for every batch size, starting state and checkpoint, with recoverable failures what the projection shows is the fold of the first later events over what it showed, each once, with the checkpoint behind them, and success means all of them, counted right |
| ProjectionRunners.InMemoryProjectionRunner.Run | src/projection.rs:485-506 | the same with the default batch size |
| ProjectionRunners.InMemoryProjectionRunner.RepeatBatches | src/projection.rs:173-201 | against any store and any failures: batches succeed and ask for more until one fails, which is the answer, or asks for no other, and then the answer is what all of them applied |
| ProjectionRunners.HealthyCatchUp | src/projection.rs:187-201 | a loop over batches that each go on by what they applied has gone on by all of it, once each, and ends only at the end of the feed |
| ProjectionRunners.InMemoryCheckpointBounds | src/projection.rs:344-365 | whatever fails, the checkpoint moves only behind a successful flush and only to the last applied event; a failed flush is what is reported, then the first failed apply |
| ProjectionRunners.InMemoryBatchStaysInStep | src/projection.rs:344-365 | from any state and checkpoint, for buffering projections too, a batch that failed half way leaves exactly the applied events shown and the checkpoint behind them, so a retry resumes with no gap and no duplicate |
| ProjectionRunners.AfterMoves | src/projection.rs:508-542 | behind the first events left to read exactly the others are left to read |
| ProjectionRunners.InStepTwice | src/projection.rs:187-201 | batches compose: going on twice is going on once by both |
| ProjectionRunners.PersistedProjectionRunner.PersistCheckpoint | src/projection.rs:236-255 | saves only after a successful flush, keeps the larger checkpoint, and skips both if nothing was applied |
| ProjectionRunners.PersistedProjectionRunner.RunBatch | src/projection.rs:831-868 | failed loads change nothing; otherwise one persisted batch |
| ProjectionRunners.PersistedProjectionRunner.CatchUp | src/projection.rs:806-826 | terminates against any event store and any checkpoint store, loads that fail and checkpoints overwritten between batches included; with a checkpoint store left alone and recoverable failures it shows the fold of the first later events over what was shown, each once, with the stored checkpoint behind them, and success means all of them, counted right |
| ProjectionRunners.PersistedProjectionRunner.RepeatBatches | src/projection.rs:173-201 | the same loop, whatever the event store and the checkpoint store do: no error of a batch is swallowed |
| ProjectionRunners.PersistedBatchIsStretch | src/projection.rs:831-868 | a batch is an uninterrupted stretch of the projection protocol, whatever fails and whatever is buffered or written on the way, and stores the checkpoint the protocol stores |
| ProjectionRunners.PersistedBatchNeverSkips | src/projection.rs:831-868 | so after any run whose rebuilds are survived, a batch leaves a checkpoint below which every event is in the read model |
| ProjectionRunners.PersistedBatchStaysInStep | src/projection.rs:307-322 | the same resumption guarantee for the persisted runner |
| ProjectionRunners.PersistedCheckpointBounds | src/projection.rs:236-255 | whatever fails, the checkpoint only moves forward, only after a flush, and only to the last applied event |
| ProjectionRunners.PersistedReports | src/projection.rs:257-322 | which failure a persisted batch reports, for every combination of a failed apply, flush and save |
| ProjectionRunners.BatchAdvances | src/projection.rs:153-184 | on a served feed a short batch is the end and a full one moves the position |
| Text.ParsePrinted | src/redis.rs:2640-2660 | parsing a printed number gives it back exactly if the width holds it |
| Text.ParsesExactly | src/redis.rs:2341-2356 | a text reads as a number exactly if it spells that number, behind a sign and zeros at most, and the width can hold it |
| Text.AsciiIsUtf8 | src/redis.rs:2700-2718 | ASCII text is well-formed UTF-8 |
| Text.Utf8Exactly | src/redis.rs:2718-2721 | the check on lines accepts exactly the encodings of sequences of Unicode scalar values |
| Resp.EncodeRespCommand | src/redis.rs:2599-2607 | the encoder loop writes the array of bulk strings |
| Resp.PushBulk | src/redis.rs:2610-2614 | appends one length-prefixed bulk string |
| Resp.Reader.ReadRespLine | src/redis.rs:2700-2721 | the bounded line read, with its length, CRLF and UTF-8 errors |
| Resp.Reader.ReadRespBulk | src/redis.rs:2652-2671 | a bulk string, nil for a negative length, and the errors of both limits and of the terminator |
| Resp.Reader.ReadRespItems | src/redis.rs:2687-2690 | the array loop decodes its values one after the other |
| Resp.Reader.ReadRespArray | src/redis.rs:2672-2692 | an array, nil for a negative count, or the error of the element limit |
| Resp.Reader.ReadRespValueAtDepth | src/redis.rs:2631-2697 | the recursive reader decodes one value, consumes exactly it, and stops at the nesting limit |
| Resp.DecodesOneFrame | src/redis.rs:2631-2697 | decoding reads exactly its own frame: what follows is left, and may be anything |
| Resp.CommandRoundTrip | src/redis.rs:2599-2614 | a command decodes to exactly its bulk strings, leaving exactly what followed, if and only if it is within the size limits |
| Resp.PipelineRoundTrip | src/redis.rs:2599-2614 | concatenated commands decode one by one |
| Resp.ReplyRoundTrip | src/redis.rs:2631-2697 | every reply, however nested (status, integer, nil, bulk, array), decodes to exactly itself and leaves what followed, if and only if it is within the limits of nesting, line length, integer width, bulk size and array length |
| Resp.OtherReplies | src/redis.rs:2631-2697 | an error line is the error of the server, and a negative array length is nil |
| Resp.RefusedReplies | src/redis.rs:2631-2697 | a reply nested too deep, an empty one and one of unknown kind are refused with their errors |
| Resp.RefusedNumbers | src/redis.rs:2631-2697 | a line that is no number, a bulk or array length over its limit: each is refused with its error |
| Resp.RefusedLines | src/redis.rs:2699-2722 | a line that is too long, not UTF-8 or cut off is refused as such, whatever kind of reply it opens |
| Resp.LengthRoundTrip | src/redis.rs:2652-2683 | a printed length reads back as itself or not at all |
| FlatHash.FlatRoundTrip | src/redis.rs:2264-2317 | unpacking the script reply returns the stored hashes in request order, in any field order, if and only if each exists with readable field names |
| FlatHash.AcceptedIsFrames | src/redis.rs:2264-2317 | every accepted reply is one length-prefixed frame per event and nothing else |
| FlatHash.EntriesRoundTrip | src/redis.rs:2243-2260 | the field and value items of a hash rebuild that hash |
| FlatHash.UnpackFlatHashBatch | src/redis.rs:2264-2317 | the cursor loop unpacks the reply, with each of its errors |
| FlatHash.RedisHashFromItems | src/redis.rs:2243-2260 | the pair loop rebuilds the hash or reports the first bad item |
| FlatHash.LoadSequenceHashes | src/redis.rs:471-492 | fetching in chunks of 256 has the outcome of one unlimited fetch, errors included |
| FlatHash.UnpackTwoBatches | src/redis.rs:137-147 | the reply for two lists of keys unpacks as the two replies one after the other |
| RedisStore.RedisDb.AppendScript | src/redis.rs:76-131 | on a represented log the script does what the atomic append does and its consistency check never fires; when the check fires nothing is written |
| RedisStore.RedisDb.WriteBatch | src/redis.rs:104-126 | the script loop adds exactly the sealed envelopes: their ten hash fields, the stream index and the global index |
| RedisStore.RedisDb.Append | src/redis.rs:618-686 | the client returns exactly the committed envelopes or the concurrency error of the atomic append |
| RedisStore.RedisDb.Load | src/redis.rs:568-589 | index pages, batched hash replies, the aggregate type filter and the field decoding together return the stream |
| RedisStore.RedisDb.LoadAfterRevision | src/redis.rs:591-616 | the same from a revision on returns the rest of the stream |
| RedisStore.RedisDb.LoadGlobalAfter | src/redis.rs:688-724 | the same over the global index returns the feed past the position, up to the limit |
| RedisStore.RedisDb.MapHashes | src/redis.rs:576-583 | whatever the hashes are: the wanted ones come back as their events, in order, those of another aggregate type are skipped, and one that cannot be read fails the load |
| RedisStore.RedisDb.FetchEvents | src/redis.rs:580-588 | fetching and mapping the hashes of listed sequences gives the events at those sequences |
| RedisStore.RedisDb.FetchedHashes | src/redis.rs:471-492 | the fetch answers with the stored hash of every listed event, in whatever order the server lists fields |
| RedisStore.ScoredRoundTrip | src/redis.rs:2222-2241 | a scored page reads back as the members and scores the server listed |
| RedisStore.ReadPairsExactly | src/redis.rs:2222-2241 | a page is read exactly if it is pairs of numbers, as those pairs in order; any other is a deserialization error |
| RedisStore.CounterReads | src/redis.rs:2203-2215 | the revision counter reads back as its value, and as zero when it is missing |
| RedisEvents.HashRoundTrip | src/redis.rs:2069-2114 | the ten fields the script writes for an event map back to exactly that event |
| RedisEvents.UnreadableFieldRefused | src/redis.rs:2069-2114 | a stored event with a missing field, text that is not UTF-8, or a number that is none or too wide, is not read as an event |
| RedisEvents.NumberStored | src/redis.rs:2394-2411 | numbers in a hash read back exactly within their width |
| RedisValues.CountsRead | src/redis.rs:2203-2215 | exactly which replies read as a count: an integer that is not negative, and text that spells the number within 64 bits; a missing counter reads as zero, and an array of one item stands for it |
| RedisValues.TextsRead | src/redis.rs:2319-2340 | text is read as it is exactly if it is UTF-8, an integer as its digits, nil and arrays not at all |
| RedisStore.AppendToBoth | src/redis.rs:618-686 | the Redis store and the in-memory store answer the same append alike, and a later load is the old stream followed by what was answered |
| RedisStore.RepliesParse | src/redis.rs:2015-2067 | the client reads every reply of the script as what it meant |
| RedisStore.OtherRepliesRefused | src/redis.rs:2015-2067 | no other reply is taken for an answer: an unknown status, too few items, or an unreadable number or reason is a deserialization error, an unknown reason a backend error |
| RedisStore.ScriptReplyParses | src/redis.rs:2015-2067 | the parsed reply carries the verdict of the shared revision check and the sequences of the batch |
| RedisStore.IndexPush | src/redis.rs:108-125 | the three writes for one event represent the log with that event added |
| RedisStore.ZAddAppends | src/redis.rs:124-125 | adding a new member with the highest score puts it at the end of a sorted set |
| ProcessManager.EffectsArePrefix | src/process_manager.rs:335-412 | in every run over pairs of manager and event that share no key, the commands of an event that took effect are a prefix of its batch, in order, each once, and all of it once a delivery succeeded |
| ProcessManager.PromisedExactly | src/process_manager.rs:335-412 | that promise is kept in every run over a set of pairs if and only if no two of them with commands share a key |
| ProcessManager.AmbiguousExactly | src/process_manager.rs:78-84 | commands of two different events can share a key, under some manager names, if and only if one event id is a text and a separator before the other |
| ProcessManager.SameKey | src/process_manager.rs:78-84 | two commands share a key exactly if their indexes and the beginnings of their keys agree |
| ProcessManager.KeysOfOneEvent | src/process_manager.rs:78-84 | commands of one event share a key only if they are the same command |
| ProcessManager.KeyInjective | src/process_manager.rs:78-84 | in particular keys are injective when event ids contain no separator, whatever the manager names |
| ProcessManager.KeyCollision | src/process_manager.rs:78-84 | any two event ids one of which is a separator tail of the other do share keys |
| ProcessManager.NoTailsApart | src/process_manager.rs:78-84 | pairs whose event ids are not separator tails of one another share no key |
| ProcessManager.CollisionLosesCommand | src/process_manager.rs:335-412 | for any two pairs with commands that share a key: with nothing failing, the second delivery succeeds and its first command never takes effect |
| ProcessManager.StepKeepsInv | src/process_manager.rs:335-412 | every step of every delivery keeps effects, seen keys and saved indexes in agreement |
| ProcessManager.Runner.RunEnvelopeWithCheckpoint | src/process_manager.rs:335-412 | a delivery is an uninterrupted stretch of the protocol; it reports no error exactly if it reached the end, and returns the outputs of exactly the commands from the loaded index to where it stopped |
| ProcessManager.Runner.DispatchFrom | src/process_manager.rs:363-393 | the dispatch loop as protocol steps, with the index of the command that failed |
| ProcessManager.Runner.DispatchOne | src/process_manager.rs:364-392 | send, then save the index; a failed send stops before the save |
| ProcessManager.Delivers | src/process_manager.rs:363-412 | what a delivery leaves: no index for the event after success; after a refused command the index of that command, so that the next delivery begins with it; the checkpoint error names the command; nothing failing means no error |
| ProcessManager.SaveResumes | src/process_manager.rs:373-374 | saving behind command i makes the next delivery begin with command i + 1 |
| ProcessManager.SendMeaning | src/process_manager.rs:364-370 | a command runs once under a new key and never under a seen one, and success is reported only of a command that ran |
| ProcessManager.LoadMeaning | src/process_manager.rs:347-350 | a delivery begins at the saved index, or at the first command if the load fails |
| ProcessManager.ClearMeaning | src/process_manager.rs:395-406 | behind the last command the index of the event goes, and no other |
| Upcast.UpcastIsComposition | src/upcast.rs:202-240 | upcasting succeeds exactly if a full path reaches the highest target and all its conversions succeed; the result is the higher of stored and highest version with the composed payload |
| Upcast.PathIsUnique | src/upcast.rs:202-240 | from one version there is at most one full path |
| Upcast.UpcastTwice | src/upcast.rs:202-240 | upcasting a result again changes nothing |
| Upcast.UpcastFailsWhereItStops | src/upcast.rs:202-240 | a failure names where the chain stops behind the hops that did convert: a hop that does not advance, a failed conversion, or an end below the highest target |
| Upcast.UpcasterRegistry.UpcastPayload | src/upcast.rs:202-240 | the loop terminates on every registry, cycles included, and follows the chain against the highest registered target |
| Upcast.UpcasterRegistry.PreparePayload | src/upcast.rs:152-163 | gives the same answer as upcasting, registered or not |
| Upcast.UpcasterRegistry.Register | src/upcast.rs:170-194 | adds one hop per source version and refuses a second one without changing anything |
| Upcast.HighestTarget | src/upcast.rs:214-218 | the highest registered target version |

## Left out

- Input and output: SQL drivers, TCP and TLS, HTTP and WASI transports, DDL text, URL parsing, tracing, the command line, the examples' user interfaces. A database is a row set with atomic commit and unique constraints.
- Serialization: payloads, metadata and ids are copied faithfully. Every aggregate has one storage key; rows under older quoted keys are not modelled, and full-history claims do not hold there.
- Event ids and timestamps are inputs that come with each new event, although every store draws its own when it prepares the events of a call; fresh ids are distinct from all earlier ones, as generated UUIDs are. Times are whole milliseconds, as they are stored. The agreement of the in-memory and the Redis store is up to those two fields.
- Async twins of synchronous code, the MySQL and other adapter stores, owned-checkpoint and transactional projection runners: the same protocols again.
- Sequences in the SQL tables are assigned at insert, so no order or completeness of the SQL feed is claimed; the projection theorems use the in-memory feed.
- The SQLite guarded statement builder and the plain SQLite append; lock contention and busy retries.
- Pool liveness (a waiter may sleep while a connection is free), connections made by a timed-out connect thread, and the classification of transport errors, which is an input.
- Clearing an event store while repositories or projections run.
- Overflow of the 64-bit revision and sequence counters; the client's reads assume they fit. Bank amounts are unbounded integers.
- Waiting, back-off delays and jitter: a wait is a step that may end at any time. Wall-clock time is an input.
- Lock poisoning.
- Concurrent appends between two pages of one Redis read, and eviction or partial restore of Redis keys, beyond the script's refusal to write.
- Saving events that did not come from the aggregate's own decision.
- RedisStore.RedisDb.Load: how ids, payloads and metadata become text is a codec assumed faithful, and no upcaster is registered.
- SqlProtocol.RefinesAtomicAppend: does not relate the error of an insert that changes nothing to the atomic append; when it fails where the atomic append succeeds, and the reverse, is the subject of SqlProtocol.CommitsAsAtomicExactly, and its error that of SqlProtocol.LoserChangesNothing.
- RedisStore.RedisDb.Append: a reply that the script never sends, an inconsistency without its fourth item, is a deserialization error here; the code indexes that item unchecked.
- Repository.Serializable: idempotent execution takes the same load, decide and append steps and is covered as such; which key a batch was committed under is the subject of LeaseIdempotency and SqlProtocol, and the two are not joined in one state machine.
