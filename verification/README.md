# Verification of a Soroban explorer

Dafny models of four parts of the explorer, and proofs about them: the Go index store with its
paged history endpoint, the ingest loops that fill it, the frontend's decoders and trace builder,
and the icon service. Check everything with `dafny verify dfyconfig.toml`.

## What is modelled

**The index and its pages** (`Rows`, `Paging`, `Api`). The table is a finite set of rows, each SQL
query its filter, sort, distinct and take. A page of a contract's history comes from one of two
plans, what is left of the cursor's ledger and then whole ledgers, or a budgeted scan of fixed
ledger windows, and a deadline chooses between them unpredictably. Three cursor texts stitch the
pages together. The main result: a client that follows `next_cursor` from anywhere gets exactly
the rows owed, newest first, whatever the plans and page sizes were, and the number of scan-only
pages is bounded by the ledgers the contract spans.

**Ingest** (`Extract`, `SavedRows`, `Ids`, `Ingest`, `WorkerCheckpoint`, `Indexer`, `BackfillEnds`,
`Resumption`, `IdCosts`). What a closed ledger becomes; the table by primary key with
first-come-stays inserts; the id columns and the sequences that number them; and a transition system of followers and
backfills that may fail or die between any two steps, with the program's 32-bit arithmetic and what
each process has cached. `Indexer` holds the loops themselves, running on the store below and proved
turn by turn to take that system's steps; `BackfillEnds` says which backfills can ever finish,
`Resumption` that stopping and starting again loses nothing, and `IdCosts` what restarts cost.

**Dictionary encoding** (`JsonArgs`, `Dictionary`, `ConcurrentSaves`, `SavesDecode`, `SaveRuns`,
`SaveHistories`, `Store`). Contracts, functions and addresses are stored by id. `JsonArgs` has the
tree walks that take addresses out of the arguments and put them back; `ConcurrentSaves`
interleaves any number of saves in any number of processes against one database, down to the encoded
table with its key conflicts; `Store` is the class whose saves the loops run. `SaveHistories` says
exactly when the order, batching and interleaving of saves can be seen in the table a reader decodes.

**The whole way** (`SavedToServed`). `IndexAndServe` joins the three parts above: an empty store is
filled from an archive by the backfill loop and a client walks a contract's history; if the backfill
completed, what the client gets is the archive's calls, in order and as they were published.

**Traces** (`TraceTypes`, `Trace`, `CallTree`, `CallActors`, `TraceReading`, `TraceCount`,
`TraceStories`, `TraceObjects`). A stack machine turns any diagnostic stream into objects on the
heap; flattening turns the forest into rows with guide lines; reading the rows back gives the
stream. `TraceObjects.ShowTrace` joins the three: it runs the walk, reads its objects and makes the
rows and the count a user sees. `TraceStories` has the stream a host writes while it runs calls:
for such a stream the rows tell just those calls.

**Contract values** (`Display`, `ScVal`, `ScValTheorems`, `ScValShows`, `ScReader`,
`WideIntegers`), **signatures** (`Signatures`) and **amounts** (`Decimal`, `Format`). The XDR reader is a class with a position,
proved against a function on bytes, which is proved exact on every valid encoding.

**Icons** (`SingleFlight`, `FlightPromises`, `IconCache`, `Currency`, `CurrencyFiles`). The single-flight
protocol as a transition system, the byte-budgeted cache, the `stellar.toml` parser, and the files it reads back.

## Assumptions

- Ledger 0 does not exist. PostgreSQL refuses a ledger above 2^31 - 1, U+0000 in a text or in the
  texts and keys of a jsonb value, and an id above its column's last; close times fit their column.
- A ledger has one close time and transaction hashes are distinct. `ExtractedArchiveIsValid`
  derives what the ingest proofs need from just these.
- The table is a fixed snapshot while one client walks its pages.
- The archive returns the ledger that was asked for, and never a different one later.
- Function ids are not negative, and a zero time means that side of the range is open.
- A process that won a claim reaches its release, as a deferred call does.
- A host logs a call's only argument as it is and any other number of them as a vector, as the
  comment in `indexer/internal/extract/extract.go:148` has it.

## Findings

- A window-plan page can hold one row more than `limit`, although the comment on
  `TransactionsByContract` says up to `limit`: with two calls of one function in one ledger, a limit
  of 1 and a timed-out streaming plan it returns both (`OnePageTwoRows`). It happens exactly when the
  scan runs and the 120000 ledgers from its start down hold more than `limit` of the rows owed
  (the contract of `TransactionsByContract`). The endpoint asks for one more than it serves and cuts.
- The worker checkpoint vouches for every ledger from a first one on as long as no process starts
  beyond the first ledger still missing. A backfill that does start beyond it moves the checkpoint
  over ledgers nobody has stored, and a follower started later resumes past them
  (`BackfillAheadLeavesAHole`; exact condition in `SaveKeepsWholeExactly` for one save and in
  `HonestThroughoutExactly` for a run).
- A backfill can lose nothing and yet never end: when a batch's size carries it past 2^32 - 1, so
  that it asks for ledger 0; when the range ends at 2^32 - 1, so that the ledger after its last batch
  is 0 again; when a row does not fit its columns, for a ledger above 2^31 - 1 or for U+0000 in an
  argument, which the chain allows (`OneNulCallIsEnough`); and when there are not enough ids left for
  the names the process has not cached (`TooManyContracts`). `BatchCanCommitExactly` has the exact
  condition for one batch and `BackfillCanCompleteExactly` for all of them. The last two causes stop
  `follow` as well.
- Every name that a save does not find in its process's cache costs an id, stored or not, so each
  restart pays again for all the names it meets (`RestartsPayAgain`). One contract is enough to use
  up all 32767 ids that way (`OneContractUsesUpAll`, `OneContractIsEnough`).
- An on-chain map of exactly the string `$a` to an integer that fits 32 bits reads as a placeholder
  when arguments are expanded; every other tree comes back as it was (`RoundTripExactly`,
  `OnChainLookalike`). The address it shows depends on which save came first: replaying a ledger is
  harmless (`ReplayIsANoOp`), but two histories of the same saves can show different addresses there
  (`LookalikeShowsTheFirstAccount`; exact condition in `HistoryIsIrrelevantExactly`).
- Values nested deeper than eight containers are refused, all others decode (`ReaderIsExact`).
- A call whose only argument is a vector is shown in the trace as if the vector's elements were its
  arguments; every other call shows its arguments as they were passed (`ArgsToldExactly`).
- Fill bytes after a signature are not looked at.

## Model

| member | source | states |
|---|---|---|
| Rows.ListingUnique | indexer/internal/store/store.go:392-394 | ordering by ledger and hash descending has one outcome for a set of rows |
| Paging.ValidTableHasDistinctKeys | indexer/internal/store/store.go:286-292 | one close time a ledger makes the table's key and the cursor's key the same |
| Paging.RecentLedgers | indexer/internal/store/store.go:560-583 | the newest matching ledgers under a bound, each once, at most so many, none left out between them |
| Paging.WholeLedgersHoldThePage | indexer/internal/store/store.go:400-420 | as many whole ledgers as the page has room for contain the page's rows, so cutting them is exact |
| Paging.FillFromBelow | indexer/internal/store/store.go:400-422 | adds exactly the newest rows below the cursor's ledger that fit |
| Paging.PageByLedgers | indexer/internal/store/store.go:378-427 | the two-query plan returns the first `limit` rows of the one sorted, filtered list below the cursor |
| Paging.ScanFloor | indexer/internal/store/store.go:519-536 | the oldest ledger of the contract in the time bound, zero only when there is none |
| Paging.ScanCeiling | indexer/internal/store/store.go:498-515 | the newest ledger of the contract in the time bound, zero only when there is none |
| Paging.PageByWindows | indexer/internal/store/store.go:432-494 | a page is a prefix of the rows owed, over its limit by one row exactly when the ledgers of one budget hold more rows owed than the limit; a continuing one holds every row at or above its ledger, lies a whole budget below its start and has rows of the contract ahead; any other page within the limit is all that is owed |
| Paging.TransactionsByContract | indexer/internal/store/store.go:330-372 | whichever plan serves, the page is a prefix of what the boundary owes, and complete or continued; it exceeds the limit exactly when the scan runs and one budget holds more |
| Paging.OnePageTwoRows | indexer/internal/store/store.go:327-330 | a table and a query for one row that get two |
| Api.ParseCursorIsExact | indexer/internal/api/api.go:252-275 | a cursor text parses exactly when it is one of the three forms, and to the boundary that form names |
| Api.RowCursorParses | indexer/internal/api/api.go:164-167 | an emitted row cursor parses back to its row |
| Api.ScanCursorParses | indexer/internal/api/api.go:168-171 | an emitted scan cursor parses back to its ledger, as a scan |
| Api.RowBoundaryOwesTheRest | indexer/internal/store/store.go:286-292 | a cursor at a served row owes exactly what follows it |
| Api.ScanBoundaryOwesTheRest | indexer/internal/store/store.go:302-313 | a scan cursor owes exactly the rows under its ledger |
| Api.BareLedgerOwesBelow | indexer/internal/api/api.go:252-275 | a cursor text that is only a ledger owes exactly the rows under that ledger |
| Api.ContractTransactions | indexer/internal/api/api.go:79-171 | a request is refused exactly when malformed, its limit text and cursor text included, and fails exactly when the store does; otherwise its rows and its next cursor's list make up the list it owed |
| Api.FollowHistory | indexer/internal/api/api.go:133-171 | following next_cursor from any cursor ends, and yields exactly the rows owed in order; each scan-only page is paid for by a whole budget of ledgers the contract spans |
| Api.FollowWholeHistory | indexer/internal/api/api.go:133-171 | from no cursor the walk is the contract's rows with the function and in the times asked for, by ledger and then by hash as a number, both descending, none skipped or repeated; scan-only pages number at most the contract's span over the budget |
| Api.RowCursorOwes | indexer/internal/store/store.go:286-292 | a row cursor owes the matching rows of lower ledgers, and of its own those with a smaller hash |
| Api.ScanCursorOwes | indexer/internal/store/store.go:302-313 | a scan cursor owes the matching rows of lower ledgers |
| Api.LimitOfExactly | indexer/internal/api/api.go:85-93 | a limit text is taken exactly when it spells a number from 1 to 50, and then as that number; without one it is 20 |
| Bytes.LexLessIsUnsigned | indexer/internal/store/store.go:392-394 | hashes sort as the numbers they spell |
| Extract.LedgerResult.AppendInvocation | indexer/internal/extract/extract.go:76-97 | appends the call whose event the transaction logged first, wherever its meta version keeps events, and nothing when it logged none |
| Extract.FnCallExactly | indexer/internal/extract/extract.go:115-140 | an event is a call exactly when it has the three topics of one, and then that call |
| Extract.Extract | indexer/internal/extract/extract.go:41-74 | fails exactly on an unknown meta version; otherwise one record for each transaction that calls, in order |
| Extract.RecordsAreDetermined | indexer/internal/extract/extract.go:76-97 | the description of the records leaves no choice between lists |
| Extract.OneRecordPerTransaction | indexer/internal/extract/extract.go:95-97 | nested calls never give a transaction a second record |
| Extract.BigFromUnsigned | indexer/internal/extract/extract.go:262-269 | the words joined as one unsigned number |
| Extract.BigFromSigned | indexer/internal/extract/extract.go:271-278 | the words joined as one two's complement number |
| WideIntegers.SignedSidesAgree | indexer/internal/extract/extract.go:185-190 | indexer and frontend read the same signed 128- and 256-bit integer from the same bytes |
| WideIntegers.UnsignedSidesAgree | indexer/internal/extract/extract.go:183-188 | and the same unsigned one |
| SavedRows.ExtractedArchiveIsValid | indexer/internal/extract/extract.go:41-97 | distinct hashes and numbered ledgers give rows whose keys determine them |
| SavedRows.InsertLedger | indexer/internal/store/store.go:191-196 | inserting a ledger's rows leaves the ledger fully stored and the table within the archive |
| Ingest.RangeNameInjective | indexer/cmd/indexer/main.go:141-141 | different backfill ranges never share a checkpoint, nor with the worker |
| Ingest.BatchCanCommitExactly | indexer/cmd/indexer/main.go:161-175 | a batch can commit exactly when its range is published and neither wraps nor starts at zero, every row of it fits its columns, and each id column has an id left for every name in it that the process has not cached |
| Ingest.BatchIsARange | indexer/cmd/indexer/main.go:161-164 | without wrap a batch asks for its range, ledger by ledger |
| Ingest.StepKeeps | indexer/cmd/indexer/main.go:102-249 | every step of every process, a commit nobody hears of and a failure that has drawn ids included, keeps: all between a process's first and next ledger is stored, every range checkpoint is true, and no sequence leaves its column |
| Ingest.RunKeeps | indexer/cmd/indexer/main.go:102-249 | so does every run |
| Ingest.RangeCheckpointIsHonest | indexer/cmd/indexer/main.go:140-182 | in every run a range checkpoint in its range means the whole range up to it is stored |
| Ingest.HistoryKeysAreDistinct | indexer/internal/store/store.go:286-292 | no reachable table has two rows with one ledger and hash |
| WorkerCheckpoint.SaveStoresExactly | indexer/internal/store/store.go:130-134 | a save completes the ledgers it asked for and no other |
| WorkerCheckpoint.SaveKeepsWholeExactly | indexer/internal/store/store.go:202-208 | one save keeps everything up to the worker checkpoint stored exactly when it stays at or below it, or no ledger is missing from the checkpoint to the save's own first one |
| WorkerCheckpoint.HonestThroughoutExactly | indexer/cmd/indexer/main.go:102-182 | the worker checkpoint can be trusted at every moment of a run exactly when each save that commits stays at or below it or leaves nothing missing before its range |
| WorkerCheckpoint.WorkerCheckpointIsHonest | indexer/cmd/indexer/main.go:102-182 | in every run whose processes start no further than the first missing ledger, wherever that is past the checkpoint, all ledgers from the origin to the worker checkpoint are stored |
| WorkerCheckpoint.BelowWorkerIsEnough | indexer/cmd/indexer/main.go:102-182 | in particular when each backfill ends at or below the checkpoint it finds |
| WorkerCheckpoint.BackfillAheadLeavesAHole | indexer/cmd/indexer/main.go:102-112 | otherwise a ledger can stay missing below the checkpoint and a new follower skips it |
| Indexer.SaveRows | indexer/internal/store/store.go:134-228 | a save of the store is a save of the ingest protocol or an attempt that failed, seen without the ids |
| Indexer.IndexBatch | indexer/cmd/indexer/main.go:184-218 | succeeds exactly if every ledger was fetched and the save goes through; saves the batch's ledgers in order or nothing, whatever order they arrive in |
| Indexer.IndexOne | indexer/cmd/indexer/main.go:220-249 | the same for one ledger, under its own number |
| Indexer.Follow | indexer/cmd/indexer/main.go:102-138 | starts unless it has neither checkpoint nor flag; then takes the turns its luck allows, one ledger after the other, and stops |
| Indexer.FillOnce | indexer/cmd/indexer/main.go:156-179 | one turn of the backfill loop: an attempt to save, and the checkpoint if the program knows it saved; the process ends where the checkpoint cannot be written |
| Indexer.FillLoop | indexer/cmd/indexer/main.go:155-179 | takes exactly the turns its luck allows, until done or a checkpoint cannot be written |
| Indexer.TurnIsAStep | indexer/cmd/indexer/main.go:102-182 | a turn that fetched everything is one step of the protocol: a save, a save unseen, or a failure that drew ids; any other turn changes nothing |
| Indexer.RecordingIsSteps | indexer/cmd/indexer/main.go:171-177 | a checkpoint write, refused or unseen, is steps of the protocol |
| Indexer.Backfill | indexer/cmd/indexer/main.go:140-182 | is already complete exactly when its checkpoint is the end of its range, and then changes nothing; otherwise takes its turns, says how it ended, and complete means the whole range is stored |
| Resumption.StoppingLosesNothing | indexer/cmd/indexer/main.go:140-182 | a backfill stopped after any weather and started again leaves what one that ran on leaves, if its checkpoints were written and its range ends below 2^32 - 1 |
| Resumption.StoppedFollowerLosesNothing | indexer/cmd/indexer/main.go:102-138 | the same of a follower that heard of every commit it made |
| Resumption.CompleteIsRecorded | indexer/cmd/indexer/main.go:140-182 | a complete backfill leaves its own checkpoint at its end and the worker checkpoint not below it |
| BackfillEnds.BackfillCanCompleteExactly | indexer/cmd/indexer/main.go:140-182 | some luck brings a backfill to its end exactly when its checkpoint is there already, or all that is left after the checkpoint is published, fits its columns and has an id left for every name not cached, and neither its last batch nor the ledger after it passes 32 bits |
| BackfillEnds.BatchKeepsDemand | indexer/internal/store/store.go:222-227 | a batch that is saved turns names left into ids issued one for one, so how a range is cut into batches does not change the ids it needs |
| IdCosts.NulNeverCompletes | indexer/migrations/0001_init.sql:24-24 | a call left to fill whose arguments hold U+0000 keeps the backfill from ever completing |
| IdCosts.OneNulCallIsEnough | indexer/internal/extract/extract.go:220-223 | such a call in an archive of one ledger, and no process can commit the ledger |
| IdCosts.TooManyContracts | indexer/migrations/0001_init.sql:4-4 | a published ledger of 32768 contracts whose rows all fit and which no backfill completes |
| IdCosts.RestartsPayAgain | indexer/internal/store/store.go:665-728 | a follower restarted before every ledger has drawn, for each kind, the names of every ledger added up |
| IdCosts.OneContractUsesUpAll | indexer/migrations/0001_init.sql:4-4 | a follower restarted before each of 32767 ledgers that call one contract leaves no id for the next to be saved by a new process |
| IdCosts.OneContractIsEnough | indexer/migrations/0001_init.sql:4-4 | an archive that does so |
| JsonArgs.CollectAddresses | indexer/internal/store/store.go:816-831 | adds exactly the addresses in the tree, in any visiting order |
| JsonArgs.RewriteAddresses | indexer/internal/store/store.go:833-853 | replaces each address where it stands and nothing else |
| JsonArgs.CollectPlaceholderIds | indexer/internal/store/store.go:855-870 | adds exactly the ids of the placeholders in the tree |
| JsonArgs.ResolvePlaceholders | indexer/internal/store/store.go:872-890 | replaces each placeholder by its address |
| JsonArgs.RewritingMakesNoPlaceholder | indexer/internal/store/store.go:833-853 | an object becomes no placeholder by rewriting what is inside, even under the key $a |
| JsonArgs.RewritingKeepsNul | indexer/internal/store/store.go:833-853 | a rewritten tree holds U+0000 exactly when the tree does |
| JsonArgs.RewritingIsInvisible | indexer/internal/store/store.go:833-890 | storing a tree and reading it back shows what reading the tree itself would show |
| JsonArgs.RoundTripExactly | indexer/internal/store/store.go:816-905 | resolving after rewriting is the identity exactly on trees without a lookalike object |
| JsonArgs.OnChainLookalike | indexer/internal/store/store.go:892-905 | what a lookalike object comes back as |
| JsonArgs.PlaceholdersExactly | indexer/internal/store/store.go:892-905 | an object is a placeholder exactly when it is "$a" alone with a number of 32 bits |
| JsonArgs.CollectsExactlyWhatIsConsulted | indexer/internal/store/store.go:855-890 | an id is collected exactly when some change of its entry changes the resolved tree |
| JsonArgs.StoredIds | indexer/internal/store/store.go:833-870 | a stored tree refers to the ids of its addresses and of what already looked like placeholders |
| JsonArgs.ExpandArgs | indexer/internal/store/store.go:611-663 | arguments stored with their addresses taken out come back as they were, if they held no lookalike and the dictionary has the addresses; otherwise every placeholder is looked up; an absent column stays absent |
| Dictionary.DecodeReads | indexer/internal/store/store.go:182-196 | a row with ids for all its words decodes to the row with its lookalikes looked up, and to nothing else |
| Dictionary.DecodeUndoesEncode | indexer/internal/store/store.go:182-196 | it decodes to itself exactly when it held no lookalike |
| ConcurrentSaves.NoLookupFails | indexer/internal/store/store.go:175-200 | when a save may commit, every word of its rows has an id, the one the dictionary will have |
| ConcurrentSaves.StepKeeps | indexer/internal/store/store.go:159-228 | every step of every save keeps ids unique and issued, uncommitted ids apart, and the cache within the committed dictionary |
| ConcurrentSaves.RunKeeps | indexer/internal/store/store.go:159-228 | so does every interleaving |
| ConcurrentSaves.IdsFitTheirColumns | indexer/migrations/0001_init.sql:3-16 | in every interleaving a committed id is positive and fits its column |
| SavesDecode.CacheIsCommitted | indexer/internal/store/store.go:222-227 | in every interleaving a cached id is the committed one |
| SavesDecode.RunRecords | indexer/internal/store/store.go:159-228 | in every interleaving the dictionary has exactly the committed rows' words, and the table without its ids is the committed rows by key, first come first kept |
| SavesDecode.StoredRowsDecode | indexer/internal/store/store.go:182-196 | in every interleaving each stored row has positive ids and decodes to the original, lookalikes aside |
| SavesDecode.TableShowsFirstCommitted | indexer/internal/store/store.go:182-196 | in every interleaving the encoded table shows under each key the first committed row that has it, read through the committed addresses |
| SavesDecode.ReplayIsANoOp | indexer/internal/store/store.go:130-134 | in every interleaving, committing rows that are all committed already changes neither table nor dictionary |
| SaveHistories.HistoryIsIrrelevantExactly | indexer/internal/store/store.go:130-134 | all interleavings that commit a set of rows decode to the same table exactly when the rows cannot all be stored, or those with one key read alike and no lookalike of a positive id stands beside an address |
| SaveHistories.ArchivedRowsExactly | indexer/internal/store/store.go:130-134 | for rows of the archive the lookalike beside an address is the only way history can show |
| SaveHistories.PlainRowsLeaveOneTable | indexer/internal/store/store.go:130-134 | in particular when keys determine rows and no argument holds a lookalike |
| SaveHistories.AnyAddressCanShow | indexer/internal/store/store.go:872-905 | where a lookalike of a positive id stands, some history shows any given address of the rows |
| SaveHistories.LookalikeShowsTheFirstAccount | indexer/internal/store/store.go:872-905 | three rows with keys of their own, saved in two orders, whose third row shows a different account each time |
| Store.Store.Snapshot | indexer/internal/store/store.go:665-708 | splits wanted words into those the cache knows and the rest |
| Store.Store.MergeInto | indexer/internal/store/store.go:798-802 | the second dictionary laid over the first |
| Store.Store.InsertMissing | indexer/internal/store/store.go:720-728 | word by word, each costs its sequence a value and new ones get it as their id, until a sequence is exhausted |
| Store.Store.Resolve | indexer/internal/store/store.go:710-788 | succeeds exactly when there is an id for every missing word and the column takes each; then ids for exactly those words, as the transaction sees them; what is drawn stays drawn |
| Store.Store.InsertRows | indexer/internal/store/store.go:182-196 | the rows in order, each encoded and kept unless its key is taken; fails exactly when a row does not fit its columns |
| Store.Store.SaveLedger | indexer/internal/store/store.go:134-228 | commits exactly when there is an id for every name not cached, every row fits and the connection holds, and says so unless the commit goes unseen; then all rows, words and the worker checkpoint change at once, the first row under each key kept and the checkpoint never moved back; otherwise nothing changes but the sequences, and what those lose is stated |
| Store.Store.CheckpointLedger | indexer/internal/store/store.go:231-241 | the stored ledger, or zero |
| Store.Store.SetCheckpoint | indexer/internal/store/store.go:245-254 | overwrites one checkpoint and changes nothing else |
| Store.EncodedFits | indexer/internal/store/store.go:182-196 | once its names are written, the encoded row is refused exactly when the row itself does not fit |
| Store.SettledIsKept | indexer/internal/store/store.go:222-228 | what a save needs and leaves behind is exactly what every interleaving keeps |
| SavesDecode.SaveRecords | indexer/internal/store/store.go:182-228 | earlier rows and the new ones are all encoded under the new dictionary, which has exactly their words |
| SavedToServed.ShowHistory | indexer/internal/store/store.go:330-372 | over a store's tables, the walk with arguments expanded and names joined serves exactly the stored calls asked for, newest first |
| SavedToServed.IndexAndServe | indexer/cmd/indexer/main.go:140-182 | from an empty store: if the backfill of an archive completes, the walk of a contract's history serves exactly the archive's calls asked for, as published, newest first |
| Trace.WalkDiagnostics | frontend/src/lib/tx-trace.ts:186-266 | for any stream the objects built are one a call up to the caps, each with its own return's value and its children in order; the walk is cut exactly at a call or event over its cap |
| Trace.KeptIsUnderTheCaps | frontend/src/lib/tx-trace.ts:202-233 | the walked prefix has at most 500 calls and 500 events |
| Trace.KeptStopsOnlyOverCap | frontend/src/lib/tx-trace.ts:202-233 | it ends early only before an item over a cap |
| Trace.OnRaise | frontend/src/lib/tx-trace.ts:207-213 | an event joins the frame on top of the stack, or the loose ones, and nothing else changes |
| Trace.OnEnter | frontend/src/lib/tx-trace.ts:234-256 | a call joins its caller or the roots and becomes the top frame |
| Trace.OnLeave | frontend/src/lib/tx-trace.ts:257-263 | a return closes the top frame with its value, and is ignored with none open |
| TraceObjects.NodeHolds | frontend/src/lib/tx-trace.ts:186-266 | every object of a walk, with all below it, holds the tree its call stands for |
| TraceObjects.ShowTrace | frontend/src/lib/tx-trace.ts:186-266 | for the stream that running any calls writes, within the caps: the rows are those calls with callee, name, arguments, result and depth, in order, the events outside any call are the loose ones, and counters and the number of calls are theirs; for any other stream the rows list its walked calls and framed events in stream order; their lines all lead somewhere |
| TraceStories.StoryIsKept | frontend/src/lib/tx-trace.ts:186-266 | the same of the walked stream as a value |
| TraceStories.ArgsToldExactly | frontend/src/lib/tx-trace.ts:234-256 | arguments are shown as passed exactly unless a vector is the only one |
| TraceStories.MovesExactly | frontend/src/lib/token-move.ts:45-72 | which events that begin with a symbol move tokens |
| CallActors.FlattenActsRight | frontend/src/components/call-tree.tsx:81-153 | for every forest: a call's actor is the call it hangs under, or the invoker; an event's is its contract or that call; a movement stands right under each event that moves tokens and nowhere else |
| TraceReading.TraceReadsInStreamOrder | frontend/src/components/call-tree.tsx:81-166 | the same of the forest a stream's timeline stands for, as a value |
| TraceReading.TimelineIsDisciplined | frontend/src/lib/tx-trace.ts:186-266 | depth grows only through calls, one frame at a time, in any stream |
| TraceCount.CountTraceCalls | frontend/src/lib/tx-trace.ts:90-96 | the recursive count of a forest's calls |
| TraceCount.ForestHoldsEveryCall | frontend/src/lib/tx-trace.ts:90-96 | for every stream the forest of its timeline has exactly the calls of the walked part; ShowTrace counts the walk's own objects by it |
| CallTree.FlattenCall | frontend/src/components/call-tree.tsx:81-153 | the pushed rows are a call's own, then its children's in seq order with movement rows under their events |
| CallTree.SiblingBelowMeans | frontend/e2e/tx.spec.ts:688-770 | a sibling below: a later row of the depth before any shallower one |
| CallTree.FlattenLinesMatch | frontend/src/components/call-tree.tsx:81-166 | for every forest each row's guides and lastSibling say exactly which columns have a row still to come |
| CallTree.LinesMatchAt | frontend/e2e/tx.spec.ts:688-770 | the same at every position of the list |
| ScValTheorems.ReaderIsExact | frontend/src/lib/scval.ts:226-325 | a valid value followed by any bytes is shown, and the reader stops at its end, exactly when it nests at most eight deep |
| ScValTheorems.OutputIsBounded | frontend/src/lib/scval.ts:187-216 | on any bytes at most one display node for four bytes read, and no deeper than the cap |
| ScValTheorems.EncodingIsAligned | frontend/src/lib/scval.ts:86-94 | every valid value takes a multiple of four bytes, its fill included |
| ScValShows.LookingAlikeIsBeingAlike | frontend/src/lib/scval.ts:226-309 | values that are shown whole and look alike are the same |
| Display.FormatShowsWhole | frontend/src/lib/scval.ts:112-120 | up to 32 bytes are shown so that they read back |
| Display.FormatShowsBothEnds | frontend/src/lib/scval.ts:112-120 | of more, the first 16 and the last 16 do |
| ScReader.Reader.Fixed | frontend/src/lib/scval.ts:55-62 | takes exactly the bytes asked for, or fails without moving |
| ScReader.Reader.U64 | frontend/src/lib/scval.ts:73-79 | eight bytes as an unsigned number |
| ScReader.Reader.I64 | frontend/src/lib/scval.ts:81-84 | eight bytes as a two's complement number |
| ScReader.Reader.Opaque | frontend/src/lib/scval.ts:86-94 | length, bytes and fill; a length past the end fails |
| ScReader.ReadNumber | frontend/src/lib/scval.ts:236-274 | every number arm, its width, sign and decimal text |
| ScReader.ReadAddress | frontend/src/lib/scval.ts:154-181 | every address kind, its payload and the refused ones |
| ScReader.ReadItems | frontend/src/lib/scval.ts:195-216 | the items one after another, each from where the last one ended |
| ScReader.ReadCount | frontend/src/lib/scval.ts:187-193 | a count the bytes left could hold, at four an entry |
| ScReader.ReadContainer | frontend/src/lib/scval.ts:195-224 | presence, count and items of a vector or map |
| ScReader.ReadScVal | frontend/src/lib/scval.ts:226-309 | does what the byte-level meaning says, never moves back or past the end |
| ScReader.DecodeScVal | frontend/src/lib/scval.ts:315-325 | nothing on text that is no base64 or on malformed bytes, the value otherwise |
| ScReader.DecodeEncoded | frontend/src/lib/scval.ts:315-325 | the text of a valid value's encoding decodes to its display form unless it nests too deep |
| Signatures.SameBytes | frontend/src/lib/signatures.ts:38-48 | equality |
| Signatures.ExtractSignatureHints | frontend/src/lib/signatures.ts:58-100 | for an envelope that ends in decorated signatures with the signatures given, each one's text beside its own hint, which reads back from its hexadecimal; otherwise what the tail says, or nothing |
| Signatures.EveryHintIsFound | frontend/src/lib/signatures.ts:50-57 | complete: any prefix followed by the signature vector gives every hint in order |
| Signatures.HintsAreReadExactly | frontend/src/lib/signatures.ts:50-57 | hints are read exactly when the envelope ends in a vector with these signatures, and are that vector's |
| IconCache.Cache.Lookup | indexer/internal/icons/icons.go:385-400 | the cached entry, unless it is absent or older than a day, or than an hour for a miss |
| IconCache.SizeIsTheBytes | indexer/internal/icons/icons.go:83-86 | an entry weighs its bytes and 256 more |
| IconCache.Cache.Store | indexer/internal/icons/icons.go:402-420 | the total is the entries' sizes, the order lists the keys once each, the budget holds, and the evicted are the shortest oldest-first prefix that makes the rest fit |
| IconCache.EvictionIsDetermined | indexer/internal/icons/icons.go:413-419 | there is one such prefix |
| FlightPromises.OneLeaderAKey | indexer/internal/icons/icons.go:153-197 | in every interleaving a key is in flight exactly when one request leads it, and never do two |
| FlightPromises.NoChannelIsClosedTwice | indexer/internal/icons/icons.go:190-197 | a release closes its leader's own channel, never one already closed |
| FlightPromises.NoWaiterIsStranded | indexer/internal/icons/icons.go:163-172 | a waiter's channel is closed, or a live leader closes it by the time it is done, even if resolving fails |
| FlightPromises.OnlyResolvedOutcomesAreShown | indexer/internal/icons/icons.go:171-177 | everything cached or handed out was resolved for its key without error |
| SingleFlight.Flights.Claim | indexer/internal/icons/icons.go:179-188 | is the claim step: the first caller leads, later ones get its channel |
| SingleFlight.Flights.Release | indexer/internal/icons/icons.go:190-197 | is the release step |
| Currency.CurrencyMeta | indexer/internal/icons/icons.go:431-483 | the first matching section with an image, else the first matching one, else nothing, with the last line of a key counting |
| Currency.Parser.Consider | indexer/internal/icons/icons.go:439-451 | settles exactly on a matching section with an image, and otherwise remembers the first match |
| Currency.OtherSectionsDoNotMatter | indexer/internal/icons/icons.go:428-430 | a part of the file that does not match, anywhere after the first header or at its end, is as good as absent |
| Currency.SectionsSplit | indexer/internal/icons/icons.go:452-460 | a header separates what comes before it from what follows |
| CurrencyFiles.SettingIsRead | indexer/internal/icons/icons.go:452-480 | a line that sets a key is read so, however it is spaced, quoted and capitalised |
| CurrencyFiles.SpaceAroundDoesNotMatter | indexer/internal/icons/icons.go:452-453 | space around a line, a carriage return included, does not change what it says |
| CurrencyFiles.FileIsRead | indexer/internal/icons/icons.go:431-483 | from a file with a section an asset, what is read of one is what its first section with an image says, else its first |
| CurrencyFiles.OtherAssetsAreUnknown | indexer/internal/icons/icons.go:431-483 | and nothing of an asset that has none |
| Format.AmountRoundTrip | frontend/src/lib/format.ts:125-141 | an amount's text without commas reads back as the same number, for every digit string |
| Format.AmountIsExact | frontend/src/lib/format.ts:125-141 | with any number of decimals the text is the exact amount, grouped, without zeros at the end of its fraction |
| Format.OtherTextIsShown | frontend/src/lib/format.ts:125-129 | text that is no integer is shown as it is, but for hostile characters |
| Format.NegativeAmount | frontend/src/lib/format.ts:130-141 | a negative amount is its magnitude behind a minus sign |
| Format.CommasEveryThreeDigits | frontend/src/lib/format.ts:139-139 | commas stand before every third digit from the end and nowhere else |
| Format.ReadsExactly | frontend/src/lib/format.ts:93-104 | a text reads as an amount exactly when it spells one |
| Format.ReadsWhatItSpells | frontend/src/lib/format.ts:93-104 | and then as the number it spells |
| Format.DifferenceIsExact | frontend/src/lib/format.ts:106-123 | the difference is exact, and missing only for unreadable texts or a negative result |
| Format.DisplayTruncates | frontend/src/lib/format.ts:20-31 | the short display hides only the last two digits |
| Format.SanitizeChainText | frontend/src/lib/format.ts:1-11 | every hostile character becomes U+FFFD and every other one is unchanged |

## Left out

- SQL text, pgx, migrations, compression: only each query's meaning. Database failures other than the deadline and a failed transaction.
- Strkey text: contract and account ids are their payloads, `SavedToServed` takes any injective text for them, and an invalid contract address is refused by shape only.
- Api.ContractTransactions: the time bounds arrive parsed, and an address with a wrong checksum is not refused.
- HTTP, the archive client, zstd, base64 and `TextDecoder`: results are parameters or uninterpreted bytes. The 120-character cut of long strings is part of the uninterpreted text.
- JSON text and jsonb normalisation: trees only. Of what jsonb refuses, U+0000 is modelled; its limits on size are not. `writeVal` and `encodeArgs` are not modelled; events carry the tree their arguments become.
- Real time: deadlines, polling and back-off are choices; cache lifetimes compare given times.
- JsonArgs.RewriteAddresses: trees are values, so the in-place update of slices and maps is an update of a local value and aliasing is not captured.
- JsonArgs.ResolvePlaceholders: the same.
- Paging.TransactionsByContract: rows carry their arguments as stored, and expanding them is `JsonArgs.ExpandArgs`; database errors other than the deadline are a choice of the endpoint.
- Dictionary.DecodeUndoesEncode: the three dictionaries are one map keyed by kind and text.
- ConcurrentSaves.StepKeeps: deadlocks and connection loss are rollbacks; one cache stands for what any process has cached, of which each snapshot finds a part. An insert that has to wait draws its id when it goes on, not before, and a save's rows enter the table at its commit. The worker checkpoint under interleaving is in `Ingest`.
- Trace.WalkDiagnostics: topics and data arrive decoded, as `TraceStories.Decoded` gives them, and the classification of events is done before the loop. What a movement row says is not modelled, only whether there is one. React keys are not modelled.
- ScReader.ReadScVal: symbol checks and texts are modelled, the decoded form of strings is their bytes; map entries are keys and values in turn. Non-zero fill bytes are accepted, as in the source.
- Store.Store.SaveLedger: the connection fails between statements. A dictionary insert cut off while it runs counts as one that never ran or one that ran; a part of its ids drawn is not modelled.
- Currency.CurrencyMeta: text is a sequence of characters, and lower case is modelled as far as it can yield a key's letters.
- SingleFlight.StepKeeps: what resolving does is a choice of outcome; eviction removes any set of keys here, the exact set is in IconCache.
- Signatures.ExtractSignatureHints: base64 is a function parameter; matching hints to signers is not modelled.
- Format.AmountRoundTrip: seven decimals, the only precision read back.
- The chart, list and page components, auth-tree fallback, storage changes, TTL lookups, ledger statistics, and the other formatting helpers.
