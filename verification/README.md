# auditctl: the audit ledger protocol

A Dafny model of the audit ledger of `auditctl`, from the line a producer appends to the row the
central ledger stores. Four parts share one notion, an event with a stable id and an origin tuple
(stream, number), and the proofs are about how they agree.

- The local writer (`cli.py`, `db.py`). Every `add` first reconciles the NDJSON shards into SQLite
  in one transaction; in a second it allocates a number, inserts the row, appends the line and
  commits. It can die or fail at any point. `LocalLedger`, `Reconcile`, `ShardDir`, `LocalWriter`,
  `WriterRuns`, `WriterTheorems` and `WriterAnswers` treat one writer at a time over whole lines;
  `WriterInterleaving`, `WriterSolo` and `WriterRepeats` treat several.
- Rebuild and import (`db.py`, `cli.py`): deduplication, the batch validator with its gap-skipping
  loop, the writer that validates again, and the gaps that `--allow-index-only` accepts.
  `ImportBatch`, `Rebuild`, `RebuildAnswers`, `RebuildRoundTrip`.
- Central ingest (`central.py`): one transaction under an event-id lock and a stream-row lock.
  `CentralLedger` is the transaction, `CentralRuns` whole sequences of calls, `CentralConcurrency`
  every interleaving of its statements, `CentralAnswers` what each of them owes its callers,
  `ConcurrentRuns` what that leaves of one producer, and `CentralPaging` the reader.
- Source preflight (`source_preflight.py`): byte framing and identity, tuple, digest and gap checks
  over frozen files. `SourceLines`, `SequenceGaps`, `SourcePreflight`; `PreflightAdmission` joins it
  to the central ledger.
- Below them: the shard file under short writes and failed flushes and its reader (`Ndjson`,
  `ShardReading`, `JsonText`, with `TextCodec` as a codec they admit), the event id encoder (`Ids`), and the record
  types (`Events`). `ShardBytes` runs the local writer over shard files of bytes and says how far that
  is the protocol over whole lines. `ProducerToCentral` is the end-to-end statement.

The protocols are written as functions of a state and as methods proved equal to them. Beside each
stands a description of its answers that uses none of its definitions: `CentralAnswers` and
`WriterAnswers` tell them from the calls, the lines and the fields of the request, `RebuildAnswers` from
the database before, the batch and the flags, `ShardReading` from the lines of the files, and
`SourcePreflight.Preflight` from the lines of the sources.

## Conventions

- SHA-256 is an injective constructor around its preimage (`Wrappers.Sha256`, `Events.RecordHash`).
  JSON values compare structurally. Stream ids are canonical: PostgreSQL normalises UUID text.
- `Events.ValidEvent` stands for `validate_event_object`. It keeps what the proofs use (the envelope
  repeats the record, numbers start at 1, the semantic rules) and leaves the field regexes out.
- The day of a timestamp is the rank of its shard file in the sorted directory, so the directory is a
  sequence of files and `read_events` is their concatenation.
- Ids, clocks, minted streams, receipt ids and lock scheduling are parameters: each theorem holds for
  every choice of them. The local writer's draws may repeat an id; the primary key then rejects it.
- Faults of a local attempt: death before or after the reconcile, an append that fails before it
  writes, a flush that fails after the whole line is written, death between append and commit, and a
  commit that raises. The flush and the commit report a failure although the line has landed. In
  `LocalWriter` an append lands whole or not at all; `ShardBytes` adds every short write.
- A transaction either commits all it wrote or nothing. In `CentralConcurrency` the only thing that
  survives a rollback is the value taken from the offset sequence.
- An `observation_id` and its `ingest_offset` are one value, and times are natural numbers.

## Where the code and its documentation part

`docs/protocols/audit-write-and-rebuild.md:100` promises unique, gap-free local numbers without
conditions. The code keeps them for one writer at a time (`WriterTheorems.RunsStaySequenced`) but the
reconcile and the event insertion are two transactions: a second writer can append and die between
them, and the first then reuses its tuple. `WriterInterleaving.CarelessRunRepeatsOrigin` is that run,
and `WriterInterleaving.SequencedExactlyWhenPlaced` says exactly when the promise holds. Once a
tuple is repeated no writer gets past its reconcile again (`WriterRepeats.RepeatBlocksEveryReconcile`).
In the same way `rebuild --replace` is refused for shards whose days decrease while the numbers rise,
which a backdated `--ts` produces: `RebuildRoundTrip.RebuildOfRun` gives the exact condition and
`RebuildRoundTrip.BackdatedRunIsRefused` the run.

An attempt that reports a failure may have kept its line: a flush or a commit that fails comes after
the line is in the shard, and the next reconcile takes it in (`WriterTheorems.CopiesMatchOutcome` says
exactly when, `WriterTheorems.ReportedFailureKeepsLine` gives the input). An `add` that is then
repeated is stored twice under two ids (`WriterTheorems.RetriedAddIsStoredTwice`); a `semantic-replay`
answers with the first (`WriterTheorems.RetriedReplayReturnsFirst`).

Reconciling shards that repeat a new id with another record depends on the order of the lines, and
only then (`Reconcile.OrderIndependentExactly`).

An interrupted append is worse than a torn last line. If the record itself is cut, every later attempt
fails in its reconcile and writes nothing (`ShardBytes.CutRecordEndsWriting`). If only the newline is
missing, the shards still read with the new event (`ShardBytes.MissingNewlineReads`); one more `add`
of the same day then reports success and leaves the shard corrupt, and all later ones fail
(`ShardBytes.OneMoreAdd`). Adds of other days go on (`ShardBytes.AttemptOnDisk`).

## Model

| member | source | states |
|---|---|---|
| Events.RowRoundTrip | auditctl/db.py:280-363 | the canonical record of an event read back from its row equals the record inserted exactly when its redundant envelope members agree |
| Events.RowIdentity | auditctl/db.py:323-363 | two valid events have equal rows exactly when their canonical import records are equal |
| Events.StoredRecord | auditctl/db.py:393-401 | a stored row compares equal to an event only if it is the row of that event and the event is consistent |
| Events.CentralIdentity | auditctl/central.py:102-159 | central record digests agree exactly when the records agree outside the resolved context and the preflight-only members |
| Events.Preparation | auditctl/central.py:93-159 | a prepared record copies every member of the event and its envelope under its own name; a valid enveloped event is refused exactly when one of the named texts is blank |
| Events.RowColumns | auditctl/db.py:149-182 | every column of an inserted row holds the member it is named for, and the envelope columns are filled exactly for enveloped events |
| Events.ValidEvents | auditctl/semantic.py:287-327 | a record that claims to be semantic is valid exactly as the projection of a well-formed result filed as an observation, and an envelope exactly as that of its record |
| Events.RevisionReads | auditctl/semantic.py:330-348 | the work revision is written as its decimal numeral, with a sign exactly below 0, and reads back to the number |
| LocalLedger.Ledger.AllocateOrigin | auditctl/db.py:223-242 | returns the stream and number of the cursor, mints the stream with number 1 when there is none, and leaves the cursor one further |
| LocalLedger.Ledger.ObserveOrigin | auditctl/db.py:245-269 | moves the cursor past an observed tuple, never back, and refuses a foreign stream without a change |
| LocalLedger.Ledger.InsertEvent | auditctl/db.py:149-182 | inserts the row, or fails on a taken id or origin tuple without a change |
| LocalLedger.Ledger.InsertEventIgnore | auditctl/db.py:185-220 | a known id is skipped whatever its tuple; otherwise as the insert |
| LocalLedger.Ledger.ReconcileShards | auditctl/cli.py:41-52 | one transaction: absorbs every line in order, or rolls everything back and reports the error |
| Reconcile.AbsorbKeeps | auditctl/cli.py:46-48 | absorbing one line, a repeated id with another record included, keeps all rows on one stream below the cursor with unique origins |
| Reconcile.MergeUnique | auditctl/cli.py:41-52 | rows merged as a union and a cursor merged as a maximum determine the index |
| Reconcile.ReconcileMerges | auditctl/cli.py:41-52 | for any ledger and any lines: success exactly when all enveloped lines are on one stream, the ledger's, and the tuples of the first lines of new ids are free and distinct; the rows then gain the first line of every new id and the cursor is the maximum over all lines |
| Reconcile.ReconcileKeeps | auditctl/cli.py:41-52 | reconciling any lines with numbers from 1 keeps the ledger invariant |
| Reconcile.OrderIndependent | auditctl/cli.py:41-52 | lines with one record per new id, in any order and multiplicity, reconcile to the same index or fail together |
| Reconcile.OrderIndependentExactly | auditctl/cli.py:41-52 | lines that reconcile do so to the same index in every order exactly when they carry one record for each new id |
| Reconcile.OrderMatters | auditctl/cli.py:46-48 | for a new id with two records, bringing the other record to the front changes the outcome |
| Reconcile.ReconcileAbsorbed | auditctl/cli.py:41-52 | lines already covered by rows and cursor change nothing |
| Reconcile.ReconcileStops | auditctl/cli.py:41-52 | a reconcile that fails stops at the first line that cannot be absorbed: a new id under a taken tuple, else a foreign stream |
| Reconcile.ReconcileIdempotent | auditctl/cli.py:41-52 | whatever the ledger and the lines, reconciling them again changes nothing |
| ImportBatch.DeduplicateBatch | auditctl/db.py:366-381 | keeps the first occurrence of every id exactly when all repeats are canonical copies, else an identity clash |
| ImportBatch.FirstsRepresent | auditctl/db.py:366-381 | deduplication keeps exactly the ids of the batch, each once, and only events of the batch |
| ImportBatch.ContinuousStep | auditctl/db.py:408-438 | one more new event continues a batch exactly when it is at or past the expected number and every number it skips was accepted as missing |
| ImportBatch.SkipAccepted | auditctl/db.py:427-431 | the gap loop ends on the event's number exactly when all numbers between are accepted, and never runs past it |
| ImportBatch.CheckStored | auditctl/db.py:392-401 | accepts exactly the batches whose known ids carry the persisted canonical record |
| ImportBatch.AdmitNext | auditctl/db.py:408-438 | one round of the validator decides whether the batch up to this event is admissible, and carries the stream and expected number |
| ImportBatch.CheckContinuity | auditctl/db.py:403-439 | accepts exactly the batches on the ledger's stream whose new numbers rise from the cursor with only accepted numbers missing |
| ImportBatch.ValidateImportBatch | auditctl/db.py:384-439 | returns the declarative verdict: identity clashes first, then discontinuity, else the deduplicated batch |
| ImportBatch.ValidatedPending | auditctl/db.py:585-600 | writing a validated batch cannot meet the unique origin index, a foreign stream or the identity-race AssertionError |
| ImportBatch.ImportCursor | auditctl/db.py:245-269 | the cursor advanced row by row ends at the validator's final expected number, or where it was when nothing enveloped is new, and the ledger invariant is kept |
| ImportBatch.WriteBatch | auditctl/db.py:592-600 | the writer loop leaves the ledger that reconciling the batch gives and counts every event as imported or skipped |
| ImportBatch.ImportEvents | auditctl/db.py:571-605 | a rejected import changes nothing; an accepted one reaches the reconciled ledger, imported plus skipped equals the batch length and imported the growth of the table |
| ImportBatch.ImportedIsHeld | auditctl/db.py:571-605 | after an accepted import the ledger holds every event of the batch |
| ImportBatch.ImportKeepsHeld | auditctl/db.py:571-605 | a later accepted import keeps every batch held before |
| ImportBatch.HeldBatchIsNoop | auditctl/db.py:384-439 | a held batch is valid whatever gaps are accepted and changes neither rows nor cursor |
| ImportBatch.ReimportSkipsAll | auditctl/db.py:571-605 | importing a held batch again returns (0, batch length) and leaves the ledger as it is |
| Rebuild.Store.FindIndexOnly | auditctl/db.py:475-504 | finds exactly the rows whose ids the batch does not carry |
| Rebuild.Store.Preflight | auditctl/db.py:442-472 | gives the verdict against an empty ledger under `--replace` or without a database, else against the live one |
| Rebuild.Store.Survey | auditctl/cli.py:456-469 | the numbers of index-only events are accepted as missing only under `--allow-index-only`, and the verdict is taken with them |
| Rebuild.Store.Refill | auditctl/cli.py:487-495 | a batch the preflight accepted is never rejected by the import, and the old database becomes the backup |
| Rebuild.Store.Rebuild | auditctl/cli.py:442-501 | every refusal and the dry run leave database and backup alone; otherwise the new database is the base with the batch and every record is counted once |
| Rebuild.SubBatchAdmissible | auditctl/cli.py:456-461 | the holes left by accepted index-only events are always skippable |
| Rebuild.AllowedLossIsRebuilt | auditctl/cli.py:456-469 | from rows numbered exactly 1 to n, any ascending sub-batch is accepted by `--replace --allow-index-only`, exactly it is kept, and the cursor is one past its last number |
| RebuildAnswers.KeptPlaces | auditctl/db.py:366-381 | deduplication keeps the records at the places where an id comes first, in their order |
| RebuildAnswers.VerdictMeans | auditctl/db.py:384-439 | the verdict told member by member: a clash with another record of the batch or with a row first, then a stream or number out of place, else the first records |
| RebuildAnswers.LossesMayBeMissing | auditctl/cli.py:456-461 | a number may be skipped exactly when it is that of a row whose id the batch lacks and the flag is set |
| RebuildAnswers.LossStops | auditctl/cli.py:472-486 | rows that the batch does not carry stop an otherwise accepted rebuild exactly when the flag is not set, and the report counts them |
| RebuildAnswers.RefusedByVerdict | auditctl/cli.py:464-486 | a rebuild is refused with the verdict's error, else for lost rows without the flag, and otherwise succeeds |
| RebuildAnswers.OnlyRebuiltWrites | auditctl/cli.py:472-501 | a refusal and a dry run leave database and backup; the backup is the old database exactly under `--replace` |
| RebuildAnswers.DryRunForetells | auditctl/cli.py:464-501 | the run without `--dry-run` gives the same refusal, or succeeds with as many lost rows |
| RebuildAnswers.RebuiltRows | auditctl/cli.py:487-501 | afterwards the database holds the row of every record of the batch and the rows it started from, nothing else; the cursor stands past them, and every record is counted once |
| ShardDir.AppendFollowsLog | auditctl/cli.py:99-167 | appending to the shard of the event's day keeps every file the events of its own day in append order |
| ShardDir.ReadIsPermutation | auditctl/ndjson.py:84-106 | reading all shards gives every appended line once |
| ShardDir.ReadOrder | auditctl/ndjson.py:84-106 | reading gives the lines in append order exactly when the days of the log do not decrease |
| LocalWriter.DraftIsValid | auditctl/semantic.py:330-348 | what `build_event` projects from a valid result passes the semantic event rules |
| LocalWriter.LocalAudit.CheckGate | auditctl/cli.py:116-155 | a plain add passes; a replay is refused when its supersedes reference does not hold, passes when its key is unused, is answered with an observation exactly when that is the only one under the key and has its payload, and is refused otherwise; `WriterAnswers.ReplayAnswer` says the same of every run from its lines |
| LocalWriter.VerdictIsGate | auditctl/cli.py:116-155 | the chain of checks reaches exactly the one verdict so described |
| LocalWriter.LocalAudit.RunEventTransaction | auditctl/cli.py:115-185 | the second transaction with its rollbacks, for every fault, leaves the specified rows, cursor and shards; a failed flush or commit reports a failure and leaves the line |
| LocalWriter.LocalAudit.RecordEvent | auditctl/cli.py:84-191 | a whole attempt, reconcile and event transaction, for every fault, failed flush and failed commit included |
| WriterRuns.LogReconciles | auditctl/cli.py:41-52 | an index of any prefix of a writer's log reconciles with the shards to the index of the whole log |
| WriterRuns.Recovers | auditctl/cli.py:41-52 | from every state an attempt leaves, reconcile succeeds and catches the index up with the shards |
| WriterRuns.AllocatedContinues | auditctl/db.py:223-242 | the allocated event is valid, carries the next number on the log's stream, and its tuple is free |
| WriterRuns.SemanticStep | auditctl/cli.py:116-155 | an event that passed the gate keeps keys unique and every supersedes reference on an earlier, lower generation of the same case and work |
| WriterRuns.AttemptKeeps | auditctl/cli.py:84-191 | one attempt, whatever its fault, keeps the index at most one line behind a log that grows by its event exactly when it reaches the shard, whatever it reports |
| WriterTheorems.RunsStaySequenced | auditctl/cli.py:84-191 | in every run of one writer at a time with any faults the shards carry exactly 1 to k on one stream with distinct ids, the rows are lines, at most one line is ahead, and the cursor is one past the rows |
| WriterTheorems.CopiesMatchOutcome | auditctl/cli.py:157-185 | in every run an attempt that reports success has its line and its row; one that answers with an existing event writes no line; one that reports a failure leaves the shards as they were exactly when it did not reach the append under a failed flush or a failed commit |
| WriterTheorems.ReportedFailureKeepsLine | auditctl/cli.py:166-184 | an add on an empty machine whose flush or commit fails reports exactly that failure, has its line in the shard and no row |
| WriterTheorems.RetriedAddIsStoredTwice | auditctl/cli.py:84-191 | after any run, an add repeated after such a failure is a second line with the same payload under its own id; only an id already on a line is refused |
| WriterTheorems.RetriedReplayReturnsFirst | auditctl/cli.py:137-155 | a replay repeated after such a failure answers with the first event and writes nothing |
| WriterTheorems.LostCommitIsRecovered | auditctl/cli.py:166-184 | after a death between append and commit, a failed flush or a failed commit, reconcile reproduces exactly the state the commit would have left, the minted stream included |
| WriterTheorems.KeysAreUnique | auditctl/cli.py:137-155 | no run commits two observations under one interpretation key |
| WriterTheorems.ReplayReturnsOriginal | auditctl/cli.py:137-155 | replaying an accepted result after any further attempts returns the original event and appends nothing |
| WriterTheorems.ReplayOfRecordedLine | auditctl/cli.py:137-155 | the same for a result whose commit was lost: its shard line is enough |
| WriterTheorems.ChainReachesFirst | auditctl/cli.py:119-136 | following supersedes strictly lowers the generation within one case and work and ends at generation 1 |
| WriterTheorems.CommittedChains | auditctl/cli.py:119-136 | every committed semantic row has such a chain inside the index |
| WriterAnswers.AddAnswer | auditctl/cli.py:92-191 | after any run an add is refused when it claims the semantic type or source, or its id is on a line; else it writes one line with every field of the request in its place and the next number of the stream |
| WriterAnswers.ReplayAnswer | auditctl/cli.py:116-185 | after any run a replay is refused when its result is malformed; is a supersedes conflict exactly when no line with that id, case and work has any lower generation; is answered with the line of its intent, or a key conflict if that line records another result; otherwise adds its observation |
| WriterAnswers.FaultAnswer | auditctl/cli.py:157-185 | after any run, an attempt that would add a line leaves, under each fault, exactly these files, this index and this report |
| WriterAnswers.OtherAnswer | auditctl/cli.py:114-155 | an attempt that would not add a line answers the same under every fault of a later step |
| RebuildRoundTrip.AdmissibleInOrder | auditctl/db.py:384-439 | the lines of a log are admissible to an empty ledger exactly when read in append order |
| RebuildRoundTrip.NothingIndexOnly | auditctl/db.py:475-504 | the protocol never leaves an event in the index that no shard carries |
| RebuildRoundTrip.RebuildOfRun | auditctl/cli.py:442-501 | after any run, `rebuild --replace` is accepted exactly when shard days do not decrease with the numbers, and then yields what reconciling yields, from empty or from the index; else it changes nothing |
| RebuildRoundTrip.RunLedgerOk | auditctl/cli.py:84-191 | the index of every run satisfies the ledger invariant |
| RebuildRoundTrip.BackdatedRun | auditctl/cli.py:98-99 | two adds, the second dated earlier, are numbered against their days |
| RebuildRoundTrip.BackdatedRunIsRefused | auditctl/cli.py:464-471 | rebuilding the shards of that run is refused as a discontinuity |
| WriterInterleaving.StepKeeps | auditctl/cli.py:114-188 | a step of any number of writers, semantic gate included, that is no append behind an uncommitted line keeps the numbering, the semantic rules and the index at most one line behind |
| WriterInterleaving.Enabled | auditctl/cli.py:114-185 | each step can be taken exactly with the writer lock free or held as it needs, a begin only after a reconcile of its writer, and one reconcile for it |
| WriterSolo.SoloIsAttempt | auditctl/cli.py:114-185 | from any state with the lock free, the steps of one writer alone leave exactly what its attempt leaves under every fault, and the other writers where they were |
| WriterInterleaving.MisplacedAppend | auditctl/cli.py:114-167 | an append behind an uncommitted line breaks the numbering |
| WriterInterleaving.SequencedExactlyWhenPlaced | auditctl/cli.py:114-188 | in every run of interleaved writers all states stay numbered 1 to k without repetition exactly when no writer appends while an earlier line is uncommitted |
| WriterInterleaving.CarefulRunsStaySequenced | auditctl/cli.py:114-188 | in particular when no writer dies after its append while another sits between its two transactions |
| WriterInterleaving.PlacedKeysAreUnique | auditctl/cli.py:137-155 | and every interpretation key then names one observation, in the shards and in the index |
| WriterInterleaving.CarelessRunRepeatsOrigin | auditctl/cli.py:114-188 | a two-writer run without that condition repeats a tuple in the shards |
| WriterInterleaving.RepeatsBreaksNumbering | auditctl/cli.py:114-188 | a repeated tuple is never part of a numbering |
| WriterRepeats.RepeatBlocksEveryReconcile | auditctl/cli.py:41-52 | in every run with ids drawn once, after two lines share a tuple every reconcile of every later state fails and changes nothing, on one stream with the taken tuple as its error |
| CentralLedger.AdmitKeeps | auditctl/central.py:285-357 | the inserts of a new observation keep numbers contiguous, ids and offsets unique, and one receipt per observation |
| CentralLedger.IngestKeeps | auditctl/central.py:208-359 | every transaction keeps the invariant and a rejected one leaves no trace |
| CentralLedger.Service.Check | auditctl/central.py:228-287 | creates the stream row and reaches duplicate, conflict, gap or accept in the order of the checks; `CentralAnswers.CallIsOwed` says from the calls before which of them it must be |
| CentralLedger.Service.Admit | auditctl/central.py:289-358 | writes observation, receipt and cursor, and takes one offset |
| CentralLedger.Service.Transact | auditctl/central.py:218-359 | statement by statement equals the one-step specification whose answers `CentralAnswers` describes, with the stream row rolled back on rejection |
| CentralLedger.Service.Ingest | auditctl/central.py:208-359 | the same, keeping the invariant of the service |
| CentralLedger.Service.IngestEvent | auditctl/central.py:208-359 | an event is refused before the transaction exactly when it is invalid, not enveloped or has a blank text, and then changes nothing; one that is answered with a receipt is stored at its origin with every member under its own name |
| CentralLedger.Service.StreamStatus | auditctl/central.py:388-401 | the reported cursor is contiguous: a number is stored exactly when it is below the next expected one |
| CentralLedger.Service.ReceiptOfEvent | auditctl/central.py:362-385 | finds the receipt of an event id exactly when the id is stored |
| CentralAnswers.CallIsOwed | auditctl/central.py:245-359 | every call of every sequence is answered as the calls and answers before it say: a record admitted before gets that receipt, counted once more and seen now; else a used tuple or event id is a conflict; else the next number after the stream's admissions is admitted, and any other is a gap |
| CentralAnswers.ReusedIdConflicts | auditctl/central.py:275-283 | an event id answered with a receipt is a conflict under every other tuple, whatever was called in between |
| CentralAnswers.UnusedIsNextOrGap | auditctl/central.py:284-287 | a record whose tuple and id no answered call used is admitted exactly when its number is one past the stream's admissions, and is told that gap exactly otherwise |
| CentralAnswers.OneRecordPerId | auditctl/central.py:249-283 | two calls with one event id that are both answered with a receipt carry the same record |
| CentralRuns.RunsStayOk | auditctl/central.py:208-359 | the invariant holds after every sequence of calls |
| CentralRuns.ReceiptsAccountForCalls | auditctl/central.py:255-273 | over any calls, the sum of 1 plus duplicate count over a stream's receipts is the number of its calls answered with a receipt |
| CentralRuns.RetriesReturnTheReceipt | auditctl/central.py:211-215 | after a record was answered, every later submission of it returns the same receipt identity as a duplicate and every other record under its tuple is a conflict |
| CentralRuns.DecideFromLog | auditctl/central.py:249-287 | for a record of a producer log the decision depends on the cursor alone |
| CentralRuns.RunKeepsPrefix | auditctl/central.py:249-287 | the stored stream stays a prefix of the producer log |
| CentralRuns.ProducerIsStoredAsPrefix | auditctl/central.py:249-287 | under any duplication, reordering and loss a producer's stream is a prefix of its log; at or below the cursor the original receipt, next to it admission, beyond it a gap, never a conflict |
| CentralRuns.StopsBeforeMissing | auditctl/central.py:276-287 | a number for which the producer has no record is never passed, and every record beyond it is answered with a gap |
| CentralConcurrency.CommitKeepsReads | auditctl/central.py:221-287 | a commit on another stream and event id invalidates nothing a transaction has read |
| CentralConcurrency.AdvanceKeeps | auditctl/central.py:218-359 | every statement of every transaction keeps lock exclusion, valid reads, distinct offsets and the serial history |
| CentralConcurrency.EveryInterleavingIsSerial | auditctl/central.py:218-359 | every interleaving with deaths anywhere commits the state, and gives the answers, of the serial run of its decided transactions |
| CentralConcurrency.EveryInterleavingIsSafe | auditctl/central.py:218-359 | contiguous numbers, unique event ids, no empty stream row and matching receipts in every reachable state |
| CentralConcurrency.AnsweredExactlyOnce | auditctl/central.py:218-359 | each answered transaction is one entry of that run, with the answer it returned |
| CentralConcurrency.DeathFrees | auditctl/central.py:218-359 | a death at any statement changes no table, no other transaction and no answer, and blocks nobody afterwards |
| CentralAnswers.TransactionIsOwed | auditctl/central.py:218-359 | in every interleaving with deaths each decided transaction is answered as the decisions before it say |
| CentralAnswers.ReusedIdConflictsInHistory | auditctl/central.py:275-283 | in every interleaving an event id that got a receipt is a conflict for every later decision under another tuple |
| CentralConcurrency.InsertNeverViolates | auditctl/central.py:289-327 | the insert never meets a unique constraint, so the driver-error branch is not reached |
| CentralConcurrency.WaitsNeverCycle | auditctl/central.py:221-244 | the wait-for graph has no cycle in any state |
| CentralConcurrency.SomeoneAdvances | auditctl/central.py:221-244 | while a transaction has not ended some transaction is not blocked |
| CentralConcurrency.EveryoneCanFinish | auditctl/central.py:218-359 | from every state a schedule without deaths ends every transaction |
| ConcurrentRuns.ReceiptsAccountForTransactions | auditctl/central.py:255-273 | in every interleaving the receipts of a stream account for exactly its answered transactions |
| ConcurrentRuns.ConcurrentProducerIsStoredAsPrefix | auditctl/central.py:218-359 | a producer submitting through any interleaved, partly dying transactions is stored as a prefix of its log, and each decided transaction got the answer that its place against the cursor owes |
| CentralPaging.RestFollowsWatermark | auditctl/central.py:426-454 | what follows a page in offset order is what a read from its last offset finds |
| CentralPaging.Refusals | auditctl/central.py:404-434 | a read is refused exactly for a negative offset, a limit outside 1 to 100 or a blank event type, in this order |
| CentralPaging.PageHolds | auditctl/central.py:426-454 | a page holds wanted rows in ascending offset order, at most the limit, and passes no wanted row over |
| CentralPaging.PagesAreAPrefix | auditctl/vuoro_adapter.py:413-417 | successive reads with any valid limits give one prefix of the ordered matches |
| CentralPaging.PagingReadsEverything | auditctl/central.py:404-454 | reading a ledger at rest with the watermark returns every match once in increasing offset order, for every filter and every sequence of limits |
| CentralPaging.EmptyPageMeansDone | auditctl/vuoro_adapter.py:413-417 | a page is empty exactly when nothing is left; it then keeps the watermark, and otherwise moves it forward |
| CentralPaging.DefaultWatermarkMissesNothing | auditctl/central.py:408-434 | from watermark 0 the rows found are exactly those the filter selects |
| SourceLines.ScanLines | auditctl/source_preflight.py:169-176 | the scanner equals keep-ends splitting on every byte string |
| SourceLines.OnlySplit | auditctl/source_preflight.py:169-176 | that splitting is the only one into non-empty single lines that joins to the input and cuts no pair |
| SourceLines.OffsetsSlice | auditctl/source_preflight.py:231-325 | an accumulated offset slices the file to exactly its line and the last line ends the file |
| SourceLines.BodyIsClean | auditctl/source_preflight.py:233 | stripping a line leaves a prefix without line ends, and removes one terminator |
| SourceLines.ReadFrozen | auditctl/source_preflight.py:179-194 | accepts exactly the files of the stated size, digest and line count that end in a newline and have no blank line, and otherwise names the first of these that fails |
| SourceLines.FramedLinesEnd | auditctl/source_preflight.py:186-193 | every line of an accepted source is terminated |
| SequenceGaps.StepwiseMeansInitial | auditctl/source_preflight.py:333-339 | comparing neighbours in sorted order finds no gap exactly when the numbers are 1 to some n |
| SequenceGaps.FindSteps | auditctl/source_preflight.py:333-339 | the gap loop reports nothing exactly then |
| SourcePreflight.ClashMeansIncoherent | auditctl/source_preflight.py:243-304 | one lookup in a dictionary answers for all the lines before |
| SourcePreflight.Check | auditctl/source_preflight.py:233-304 | a line passes exactly when it is valid by itself and agrees with every earlier line on id, tuple and idempotency key; otherwise the error is the first thing that is wrong with it, told from the earlier lines |
| SourcePreflight.FaultlessFits | auditctl/source_preflight.py:237-304 | a line can stand after those before it exactly when no listed fault applies: invalid, without id, an id, tuple or key shared with other bytes, or a digest that is not that of its record |
| SourcePreflight.FilledDescribes | auditctl/source_preflight.py:243-304 | as long as lines agree the dictionaries hold exactly their keys and bindings |
| SourcePreflight.FilledCounts | auditctl/source_preflight.py:223-294 | every line is the first of its event or a counted duplicate and counted once by the standing of its digest |
| SourcePreflight.FilledDigests | auditctl/source_preflight.py:260-294 | the four counters are the numbers of lines that carry the digest of their record, carry none, carry one of an unknown domain, and carry one that nothing can be compared with |
| SourcePreflight.ScanLine | auditctl/source_preflight.py:232-326 | one round of the inner loop: the line fits and the tables are filled, or the error is its first fault |
| SourcePreflight.ScanSource | auditctl/source_preflight.py:230-326 | a source is scanned without error exactly when its lines fit after those before; otherwise the error is the first fault of its first faulty line |
| SourcePreflight.ScanAll | auditctl/source_preflight.py:229-326 | all sources are scanned without error exactly when all are framed and all lines fit together; otherwise the error is that of the first faulty source |
| SourcePreflight.Group | auditctl/source_preflight.py:328-331 | groups exactly the tuples of the locations by stream |
| SourcePreflight.FindGaps | auditctl/source_preflight.py:332-341 | reports no gap exactly when every stream is numbered 1 to some n |
| SourcePreflight.Preflight | auditctl/source_preflight.py:214-365 | accepts exactly the source sets whose files are framed, whose lines pairwise agree and whose streams have no gap, so none with a digest that is not that of its record; the report counts lines, events, duplicates, keys, streams and digests by kind, and calls the digests complete exactly when every line carries that of its record; a refusal names the first fault |
| SourcePreflight.LinesAreItems | auditctl/source_preflight.py:232-324 | no line of an accepted set is left out of the records |
| SourcePreflight.ItemIsLine | auditctl/source_preflight.py:229-240 | every checked item is a line of its source, with that source's repository and digest domain and the event the line parses to |
| SourcePreflight.RecordsInOrder | auditctl/source_preflight.py:229-326 | the records come source by source and line by line |
| SourcePreflight.RecordNames | auditctl/source_preflight.py:311-324 | each record names the source, line number, bytes, id, tuple, class and digests of its line |
| SourcePreflight.LocationSlices | auditctl/source_preflight.py:311-325 | each recorded location slices its frozen source to the line its event was parsed from, and the last ends at the byte count |
| PreflightAdmission.QualifiedIsAdmitted | auditctl/source_preflight.py:229-341 | a qualified set submitted to an empty central ledger, ascending per stream and interleaved in any way, has every distinct enveloped event admitted as new |
| PreflightAdmission.QualifiedEndsComplete | auditctl/source_preflight.py:328-341 | every stream then ends at its last number, one stored record per event |
| ProducerToCentral.RunIsProducerLog | auditctl/central.py:102-159 | the shard lines of any crash-prone local run are one producer log, with a gap for each line that cannot be prepared |
| ProducerToCentral.PublishedRunIsPrefix | auditctl/central.py:208-359 | end to end: the lines of any run under any network are answered from the cursor alone, never with a conflict, and the central stream holds only them |
| ProducerToCentral.UnpreparableLineStopsStream | auditctl/central.py:102-159 | a line that the local writer accepts and preparation refuses is never passed: the stream stops before it and later lines are gaps |
| Ids.EncodeCrockford | auditctl/ids.py:9-14 | the shifting loop yields the 26 highest-first digits of the number |
| Ids.DecodeInvertsEncode | auditctl/ids.py:9-14 | 26 characters of the alphabet, read back to the number |
| Ids.EncodeInvertsDecode | auditctl/ids.py:9-14 | every text of the alphabet is the encoding of the number it is read as |
| Ids.OrderPreserved | auditctl/ids.py:9-14 | text order is numeric order and the encoding is injective |
| Ids.LaterIsGreater | auditctl/ids.py:17-25 | ids order by millisecond first whatever the random bits, for millis below 2^50 and 80 random bits |
| Ids.Alphabet | auditctl/ids.py:6 | the alphabet is the digits and the upper-case letters without I, L, O and U, in order |
| Ids.IdReads | auditctl/ids.py:9-25 | an id is the prefix and 26 digits that read back to the millisecond above the 80 random bits |
| JsonText.JsonCloses | auditctl/ndjson.py:98-104 | a JSON text that starts with a brace closes its object at its end and nowhere before |
| JsonText.CutIsOpen | auditctl/ndjson.py:98-104 | no proper prefix of an object text is one |
| JsonText.JoinedIsOpen | auditctl/ndjson.py:98-104 | an object text after anything that has begun an object never completes it |
| JsonText.SecondIsOpen | auditctl/ndjson.py:98-104 | the beginning of a second object after a whole one is past saving |
| Ndjson.Shard.Append | auditctl/ndjson.py:57-81 | for any sizes of short writes the file grows by exactly the bytes written, and by none of an oversized line; it succeeds exactly when all were written and the flush did not fail, and a failed flush leaves the whole line |
| Ndjson.ProgressIsSum | auditctl/ndjson.py:70-76 | the bytes written are the sum of the counts before the first call that wrote nothing, and no more than the line |
| Ndjson.ReadDelivered | auditctl/ndjson.py:97-108 | reads line by line and stops at the first line that is no event, as `ShardReading` says from the lines |
| Ndjson.ReadShard | auditctl/ndjson.py:96-110 | reads the lines that the decoder delivers before it raises: the first bad one of them decides, else the shard is corrupt; a file that decodes is read whole |
| Ndjson.ReadEvents | auditctl/ndjson.py:93-114 | reads the files in order with the error of the first that fails (`ShardReading.ReadableFilesRead`, `ShardReading.FirstBadFile`) |
| ShardReading.GoodLinesRead | auditctl/ndjson.py:96-108 | lines that are events or blank read as their events in order |
| ShardReading.FirstBadLine | auditctl/ndjson.py:98-108 | after such lines the first other one decides: the code of an invalid record, else corrupt_shard, whatever follows |
| ShardReading.BlanksAreSkipped | auditctl/ndjson.py:98-100 | reading any lines is reading those of them that are not blank |
| ShardReading.EmptyLineIsSkipped | auditctl/ndjson.py:96-108 | an empty line between canonical records is skipped and both sides are read |
| ShardReading.ReadableFilesRead | auditctl/ndjson.py:93-114 | files that can all be read give their events file by file |
| ShardReading.FirstBadFile | auditctl/ndjson.py:93-114 | otherwise the error is that of the first file that cannot be: missing, unreadable, its first bad line, or corrupt where the decoder raises |
| Ndjson.CompletedAppendsRead | auditctl/ndjson.py:57-106 | any appends that run to their end, each in writes of any sizes, leave the concatenation of the lines not refused for length, and read back as their events in order |
| Ndjson.AppendedFile | auditctl/ndjson.py:57-81 | the file is the concatenation of the canonical lines |
| Ndjson.InterruptedAppendReads | auditctl/ndjson.py:71-106 | an append that stops midway reads as before, with the new event when only the newline is missing, and as corrupt_shard otherwise |
| Ndjson.InterruptionPoisonsShard | auditctl/ndjson.py:71-106 | a whole record appended after an interrupted one, by any program, leaves the shard corrupt whatever follows |
| Ndjson.SecondPoisonsShard | auditctl/ndjson.py:71-106 | when only the newline is missing, any byte of another record leaves the shard corrupt |
| TextCodec.CodecExists | auditctl/ndjson.py:57-106 | the assumptions about the JSON writer and reader are met by one that writes every event as an object text and reads each back |
| ShardBytes.HeldReads | auditctl/ndjson.py:93-114 | files of whole lines, the last newline of each perhaps missing, read as the events of the days in order |
| ShardBytes.AppendOnDisk | auditctl/ndjson.py:66-76 | any first bytes of a line either extend its day by the event or, exactly when the record is cut or the file lacks its newline, leave the shards corrupt |
| ShardBytes.AttemptOnDisk | auditctl/cli.py:84-191 | an attempt over bytes, with any short writes, is an attempt over whole lines with the same index, answer and lines, unless it leaves bytes that no append can complete; the shards are then corrupt |
| ShardBytes.RaisesWhenStuck | auditctl/ndjson.py:71-76 | an append raises exactly when a write call writes nothing before the line is complete |
| ShardBytes.CorruptRefuses | auditctl/cli.py:114-114 | on corrupt shards no attempt succeeds or changes anything |
| ShardBytes.RunsRefine | auditctl/cli.py:84-191 | every run over bytes, with any faults and any short writes, is a run over whole lines up to the first such attempt and changes nothing after it |
| ShardBytes.ReadableRunIsSequenced | auditctl/cli.py:84-191 | in every such run shards that can be read carry 1 to k on one stream with the index at most one line behind, and shards that cannot are corrupt |
| ShardBytes.RunIsAscii | auditctl/ndjson.py:58-72 | no run writes a byte outside ASCII, so the text decoder never raises on shards of this program |
| ShardBytes.CutRecordEndsWriting | auditctl/ndjson.py:71-76 | an attempt whose record is cut fails, and nothing attempted after it changes anything |
| ShardBytes.MissingNewlineReads | auditctl/ndjson.py:71-106 | an attempt cut before its newline leaves shards that read with its event |
| ShardBytes.OneMoreAdd | auditctl/cli.py:157-188 | the next add of that day reports success with line and row, the shards are corrupt, and nothing attempted after it changes anything |

## Left out

- SQL text, drivers, WAL retry, grants and schema versions (`central_schema.py`, migrations): DDL and library behaviour.
- Path, repository and worktree resolution (`paths.py`), snapshot attribution (`attribution_listing.py`) and the Vuoro catalogue (`vuoro_adapter.py`, except the watermark rule): filesystem probing and translation.
- `validate_event_object` beyond `Events.ValidEvent`: regexes, timestamp parsing, publisher metadata rules, usage bounds.
- The preflight manifest itself (`source_preflight.py:121-166`): its field checks, bounds and digest; the sources it names are the input of the model.
- The import fingerprint of a preflight record: a digest of values that the record already carries.
- The check that a replay does not append to one of its immutable inputs (`cli.py:101-109`): path comparison.
- Paging during concurrent ingest: offsets are assigned before commit, so rows can appear below a watermark.
- Events.RowRoundTrip: a context with no members is stored as absent, and is not distinguished from an absent one.
- CentralConcurrency.EveryInterleavingIsSerial: takes the isolation of committed reads and row locks of PostgreSQL as the meaning of each statement, and does not model lock timeouts.
- Ndjson.CompletedAppendsRead: the JSON library is a parameter that must accept only JSON, load canonical text of valid events, and treat an empty line as blank; its own parser is not modelled (`TextCodec.CodecExists` shows that the requirements can be met).
- Ndjson.ReadShard: how many lines the decoder delivers before it raises is a parameter; UTF-8 decoding and its chunk size are not modelled.
- ShardBytes.AttemptOnDisk: a power loss that undoes bytes already written is not modelled; what a write call wrote stays.
- WriterInterleaving.SequencedExactlyWhenPlaced: interleaved writers append whole lines; short writes are combined with one writer at a time only.
- WriterRepeats.RepeatBlocksEveryReconcile: assumes that event ids are drawn once, as 80 random bits in a millisecond make them.
- SourcePreflight.Preflight: parsing a line into an event is a parameter; the shape of a supplied record digest is given by its type.
- Ids.LaterIsGreater: the conversion of a clock reading to milliseconds in floating point is not modelled.
