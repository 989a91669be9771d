# A verified model of the LevelDB port

The repository is a partial port of LevelDB to modern C++. This project states, in Dafny, what its database
lifecycle, write-batch codec, arena, file names, random generator and the `OptionalBST` exercise do, and proves that
they keep what they promise: over every run of the database, every byte string, every sequence of allocations, every
seed. Check everything with `dafny verify dfyconfig.toml`.

| file | source | what it holds |
|---|---|---|
| `Coding.dfy` | `db/write_batch.cpp`'s coding helpers | fixed-width and varint codecs over bytes |
| `WriteBatch.dfy` | `db/write_batch.cpp` | the batch object, its byte grammar, the memtable inserter |
| `ByteFormat.dfy` | `db/write_batch.cpp` | the bytes of a batch and the entries they stand for, spelled out |
| `Builder.dfy` | `db/builder.cpp` | building a table file |
| `FileName.dfy` | `db/filename.cpp` | printing and parsing names, the CURRENT switch |
| `Directory.dfy` | `db/dp_impl.cpp` | what the collector and recovery see in a directory listing |
| `Recovery.dfy` | `db/dp_impl.cpp` | from log records to tables, a memtable and counters |
| `Database.dfy` | `db/dp_impl.cpp` | the whole database as a state machine over locked regions |
| `Scheduling.dfy`, `Durability.dfy`, `Invariants.dfy` | `db/dp_impl.cpp` | what every step keeps |
| `Guarantees.dfy` | `db/dp_impl.cpp` | what users may rely on in every reachable state |
| `Steps.dfy` | `db/dp_impl.cpp` | what single steps do, spelled out where invariants would leave a choice |
| `Opening.dfy` | `db/dp_impl.cpp` | why what recovery computes is a sound opening of the machine |
| `Unreadable.dfy` | `db/dp_impl.cpp` | exactly which openings that pass over unreadable logs a database survives |
| `DbImpl.dfy` | `db/dp_impl.cpp` | the `DBImpl` object; its methods implement the machine's steps |
| `ManualCompaction.dfy` | `db/dp_impl.cpp` | progress and coverage of `TEST_CompactRange` |
| `Arena.dfy` | `util/arena.cpp`, `util/arena.hpp` | the bump allocator |
| `Random.dfy`, `FullCycle.dfy` | `util/random.hpp` | the generator modulo 2^31 - 1, and its full cycle |
| `OptionalBst.dfy` | `main.cpp` | the range-minimum recursion |

## How the database is modelled

One action of the machine is one region between acquiring and releasing `mutex_`, or one piece of file writing done
while the mutex is released. Any sequence of enabled actions is a run, so a statement about every reachable state is a
statement about every interleaving of writers, callers of manual compaction, callers that wait for the memtable, the
background thread, the destructor, and of crashes and reopenings at any point. `LogAndApply` gets the mutex and may
release it, so installing an edit takes two actions, with everybody else running in between; it may fail, and then the
edit may or may not be in the manifest. The database on disk (logs, tables, manifest) is kept apart from the version in
memory. `written` is a record of every entry that has reached the log, so of every acknowledged one; nothing the
program does depends on it. Recovery may be cut short at any point, by a crash or by a call that fails: whatever it has
written by then, whole or partial, is under numbers it handed out (`OpenInterrupted`). So may a collection
(`CollectionCut`).

The methods of class `DBImpl` update fields as the C++ methods do, and each is proved to take `State()` where the
machine's step takes it; the invariants are proved once, about the machine. For recovery the connection runs from the
directory listing and the logs' bytes, through `Recover` with every call in it that may fail, to `OpeningOf`.
`RecoveryIsSound` says exactly when that is an opening the machine may take, and `DBImpl.Open` exactly when it takes a
reachable database to a reachable one, opened or not: whenever every kept log can be read, and otherwise unless an entry
gets out of reach. Every method that is one of the machine's steps keeps the object's state reachable. A listing holds every numbered file and CURRENT, and besides any names that do not parse.

## What the proofs found

* **A null pointer.** `BackgroundCompaction` reads `manual_compaction_` again after the compaction
  (db/dp_impl.cpp:801-813). Its caller may have withdrawn the request meanwhile, because of a background error or a
  shutdown (656-659), and then the pointer is NULL. `NullRequestExactly` gives the exact condition,
  `NullRequestHappens` a run from an empty database, by way of a shutdown. No other caller's request can have taken its
  place: that too would need a database without error or shutdown.
* **A window without protection.** `WriteLevel0Table` erases the table's number from `pending_outputs_` (548) before
  the manifest names it (591). A collection in between would delete the table; `CollectionSparesConstruction` states
  that as an equivalence, `WindowHappens` that there are such moments, and `ConstructionIsNeverDeleted` that no step of
  the program collects then.
* **A wait that lasts.** `TEST_CompactMemTable` does not look at `shutting_down_` (669-671). A caller goes to sleep with
  no job left to wake it exactly when a memtable is unflushed, no error is recorded and the last job has ended in a
  shutdown (`FlushCallerStrandedExactly`); then exactly a recorded error or the end of the process ends the sleep
  (`StrandedStep`, `SleepLasts`). Which job was outstanding when the shutdown was announced decides
  (`ShutdownStrandsExactly`): a flush, however far it had come, lets the callers go; a job not yet started, a move or a
  compaction strands them unless something goes wrong. Everyone else asleep on `bg_cv_` has a job that will wake it.
* **A log that cannot be opened is passed over** unless `paranoid_checks` is set (425-429), and the database opens
  without its entries. It goes on safely if and only if every one of them is superseded in a table or is in the log it
  goes on writing (`OutOfReachExactly`, `RunsOnExactly`). Otherwise an entry is lost: at once if a new manifest is
  written (`SurvivesExactly`, `LossHappens`), and at the first flush, which forgets the log, if not. Until then the log
  is still kept, and if it holds a number above the recovered counter the next write repeats a number, or falls behind
  one, that a later recovery reads again (`CounterExactly`, `NextWriteExactly`, `RepetitionHappens`).
* **The missing-file check looks at numbers only.** `expected.erase(number)` (371) ignores the type of the file, so a
  log can stand in for a lost table (`MissingTableUnnoticed`); `MissingCheckExactly` says when the check passes.
* **An empty batch moves the counter.** Recovery takes a batch's last number to be sequence + count - 1 in 64 bits
  (470-475), so an empty batch counts as the number before its own, a number no entry need bear. The counter is exactly
  the greatest number replayed if and only if no empty batch overshoots every replayed number
  (`RecoveredSequenceIsExact`), and it is 2^64 - 1, which leaves no number to write with, if and only if some batch ends
  there or is empty and numbered 0 (`PoisonedExactly`, `EmptyRecordPoisonsSequence`).
* **The guard on `bg_error_`** (268-272) is needed: `ErrorGuardIsNeeded` gives the state in which collecting would
  delete a table the manifest names.
* **Manual compaction can miss arrivals.** What a finished request leaves in its range is exactly what is left of the
  files that arrived, by other compactions, when they did not overlap the rest of the range (`DoneLeavesExactly`,
  `DoneMeansCompacted`; `ArrivalIsMissed` is such a run). Above level 0 every prefix of the overlapping files is a good
  choice for one pass; for files that overlap one another `NothingIsSkippedExactly` gives the condition.
* **A unit test disagrees with the code.** `main.cpp:161` expects `OptionalBST({10}, {20})` to be 10 * 20; the code
  returns 20. `SingleElement` says for which keys and weights the two agree.
* **`AllocateAligned(0)` on a fresh arena returns NULL** (`ServePlaces`); every other request gets a place in a block.

## How unfinished code is read

* `WriteLevel10Table` (db/dp_impl.cpp:527) is `WriteLevel0Table`; the iterator of line 541 is the memtable's.
* `DB::Open` sets `logfile_number_` to the new log it creates (184-197), so that line 202 installs it.
* `Recover` starts at line 348; the branch before it that creates the database is misnested. A run starts from the
  state `NewDb` leaves (224-256).
* `MakeFileName` puts no slash between the database name and the number (db/filename.cpp:18-22), although
  `DescriptorFileName` does. The model does the same; parsing is about the part after the prefix. `CurrentFileName` is
  taken to be `dbname/CURRENT`.
* The corruption reporter of `RecoverLogFile` (410-418) is unfinished; records under 12 bytes are skipped.
* Code that is not in the repository is a contract: `VersionSet` (counters, live set, log numbers; `CompactRange`
  returns some of the overlapping files with the others behind them, or NULL when none overlaps), `DoCompactionWork`
  (`Merges`: outputs hold only input entries, and for each input entry one of the same key at least as new),
  `MakeRoomForWrite`'s switch to a new log and memtable, and the rest of `Write` (append to the log, insert, advance the
  last sequence, or record a background error: `WriteError`, which no code in the repository does by itself and no
  counterexample relies on). Little-endian fixed integers, varint length prefixes and `ConsumeDecimalNumber` are written out.
* `int` in `Count` and `SetCount` is 32-bit two's complement; sequence numbers wrap at 2^64; the generator's shift,
  mask and casts are written out on 32 and 64 bits.

## Model

| member | source | states |
|---|---|---|
| Coding.FixedRoundTrip | db/write_batch.cpp:69-83 | a number that fits the width reads back from its little-endian bytes |
| Coding.FixedRoundTripBytes | db/write_batch.cpp:69-83 | and every byte string of the width is the encoding of what it reads as |
| Coding.Varint32RoundTrip | db/write_batch.cpp:88-95 | a 32-bit length reads back from its 7-bit groups, with the number of bytes consumed, whatever follows |
| Coding.SliceRoundTrip | db/write_batch.cpp:88-95 | a length-prefixed slice reads back, whatever follows it |
| Coding.SliceIgnoresSuffix | db/write_batch.cpp:41-50 | a slice that can be read is read the same when bytes are added at the end |
| WriteBatches.WriteBatch.constructor | db/write_batch.cpp:13-15 | a new batch is the encoding of no updates at sequence 0 |
| WriteBatches.WriteBatch.Clear | db/write_batch.cpp:21-24 | clearing makes it that again |
| WriteBatches.WriteBatch.SetCount | db/write_batch.cpp:73-75 | replaces the four count bytes by the number modulo 2^32 and nothing else |
| WriteBatches.WriteBatch.SetSequence | db/write_batch.cpp:81-83 | the sequence reads back, the bytes behind it stay |
| WriteBatches.WriteBatch.Put | db/write_batch.cpp:85-90 | the representation becomes AddOp of the old one, which AddOpExtendsBatch explains |
| WriteBatches.WriteBatch.Delete | db/write_batch.cpp:92-96 | the same for a deletion |
| WriteBatches.WriteBatch.IterateOne | db/write_batch.cpp:36-58 | one turn of the loop: the parsed record goes to the handler and the rest is left, or the failure says which record was bad and the handler is untouched |
| WriteBatches.WriteBatch.Iterate | db/write_batch.cpp:26-67 | the status is the one of the byte grammar and count check; the handler has received exactly the parsed updates, in order |
| WriteBatches.MemTableInserter.Put | db/write_batch.cpp:106-109 | one value entry with key, value and the current number, which moves on by one modulo 2^64 |
| WriteBatches.MemTableInserter.Delete | db/write_batch.cpp:111-114 | one deletion entry with the key, no value and the current number, which moves on likewise |
| WriteBatches.WriteBatch.InsertInto | db/write_batch.cpp:119-125 | the memtable gains exactly the batch's entries, numbered from the header's sequence, also when the tail is malformed |
| WriteBatches.WriteBatch.SetContents | db/write_batch.cpp:127-130 | the representation is the given bytes |
| WriteBatches.WriteBatch.Append | db/write_batch.cpp:132-136 | the representation becomes AppendBatch of both, also for a batch appended to itself |
| WriteBatches.FeedParses | db/write_batch.cpp:35-59 | feeding a handler record by record delivers what parsing the whole body finds, with consecutive numbers and the same failure |
| WriteBatches.AddOpExtendsBatch | db/write_batch.cpp:85-96 | Put and Delete turn the encoding of some updates into the encoding of one more, the sequence undisturbed |
| WriteBatches.BatchRoundTrip | db/write_batch.cpp:21-96 | iterating the encoding of any updates yields exactly them, count and sequence included, and is accepted if and only if there are fewer than 2^31 |
| WriteBatches.RunRoundTrip | db/write_batch.cpp:21-96 | after Clear, SetSequence and any run of Put and Delete, iterating yields exactly that run, with its sequence, and with its count whenever it is accepted |
| WriteBatches.AcceptedIsPrefixFree | db/write_batch.cpp:26-67 | every strict prefix and every strict extension of an accepted batch is rejected |
| WriteBatches.AppendIsHomomorphic | db/write_batch.cpp:119-136 | inserting Append(a, b) adds a's entries and then b's updates numbered on from a's, under a's header sequence |
| WriteBatches.AppendAccepted | db/write_batch.cpp:26-67 | for an accepted a, what Iterate says of Append(a, b) is what it says of b, except that it finds the count wrong when b is accepted and the counts add up to 2^31 or more |
| WriteBatches.AcceptedEntriesAreContiguous | db/write_batch.cpp:99-125 | an accepted batch adds Count entries, numbered from the header's sequence without a gap |
| ByteFormat.EntryCarries | db/write_batch.cpp:99-125 | whatever the bytes, entry i is a value entry if and only if update i is a Put, with its key and value, and otherwise a deletion entry with its key and no value; its number is the header's plus i |
| ByteFormat.PutInBytes | db/write_batch.cpp:85-90 | a batch of one Put is the header, tag 1, key and value with their lengths, and stands for that one value entry |
| ByteFormat.DeleteInBytes | db/write_batch.cpp:92-96 | a batch of one Delete is the header, tag 0 and the key with its length, and stands for that one deletion entry |
| ByteFormat.HeaderBytes | db/write_batch.cpp:69-83 | bytes 0 to 7 are the sequence and 8 to 11 the count, low byte first; the updates start at byte 12 |
| ByteFormat.FixedBytes | db/write_batch.cpp:69-83 | byte i of a fixed-width number is its i-th digit to base 256 |
| ByteFormat.VarintBytes | db/write_batch.cpp:88-95 | byte i of a length is its i-th digit to base 128, marked with 128 except in the last |
| ByteFormat.FailuresExactly | db/write_batch.cpp:37-58 | which failure a record meets: another tag than 0 or 1, an incomplete key, an incomplete value |
| ByteFormat.RejectedExactly | db/write_batch.cpp:26-67 | which status a batch gets: under 12 bytes, its first bad record, or a wrong count |
| WriteBatches.CountBound | db/write_batch.cpp:69-71 | the count is read as a 32-bit signed number |
| TableBuilding.BuildTable | db/builder.cpp:13-86 | succeeds exactly when no call fails; then the file holds all entries and the metadata its first and last, and otherwise no partial file stays behind |
| FileNames.ConsumeDecimalNumber | db/filename.cpp:91-107 | consumes the longest run of digits; fails exactly when there is none or it does not fit 64 bits |
| FileNames.ParseFileName | db/filename.cpp:74-123 | accepts and classifies exactly as Parse does |
| FileNames.NameRoundTrip | db/filename.cpp:14-55 | the base name of every kind and 64-bit number parses back to both |
| FileNames.BaseNamesAreDistinct | db/filename.cpp:14-55 | equal base names have the same kind and number |
| FileNames.NamesAreDistinct | db/filename.cpp:14-55 | equal full names in a database have the same kind and number |
| FileNames.ParsesExactly | db/filename.cpp:66-123 | a name parses to a log, table, temporary file or manifest with a number if and only if it is digits of that value that fit 64 bits followed by .log, by .ldb or .sst, by .dbtmp, or preceded by MANIFEST- |
| FileNames.NamesSpelledOut | db/filename.cpp:88-120 | such names, spelled out, are parsed to the number and kind |
| FileNames.UnnumberedSpelledOut | db/filename.cpp:79-87 | CURRENT, LOCK, LOG and LOG.old, and no other names, are parsed to the kinds without a number |
| FileNames.MadeNames | db/filename.cpp:14-55 | the names made for a database: six digits or more, the suffix, and where the slash goes |
| FileNames.PaddedExactly | db/filename.cpp:18-20 | the number in decimal, filled up with zeros to exactly six digits below a million, and without a leading zero from there on |
| FileNames.SetCurrentFile | db/filename.cpp:126-144 | at every moment CURRENT is untouched or holds the new name; the new name stands if and only if the call succeeds; the temporary file is gone and no other file is touched |
| FileNames.CurrentParses | db/filename.cpp:126-144 | what CURRENT then holds ends in a newline and parses to the requested manifest |
| Directory.ScanOfListing | db/dp_impl.cpp:366-375 | the logs picked from a listing are exactly the directory's logs that the version keeps, whatever foreign names it holds |
| Directory.RealListing | util/env_posix.cpp:424-438 | an actual listing, with the entries for the directory itself and its parent, a foreign file and no info log, is one of those considered |
| Directory.MissingCheckExactly | db/dp_impl.cpp:364-381 | the missing-file check passes if and only if every live number is borne by some file of any kind |
| Directory.MissingTableUnnoticed | db/dp_impl.cpp:371 | a lost table whose number a log bears goes unnoticed |
| Directory.SortedIsAscending | db/dp_impl.cpp:383-384 | sorting gives an ascending list of the same numbers |
| Directory.CollectionAgreesWithRecovery | db/dp_impl.cpp:274-384 | after a collection a recovery from the same version passes the check and picks the same logs in the same order; a name is gone if and only if it is a log below the log number and not the previous one, a table or temporary file neither live nor pending, or a manifest below the current one |
| Directory.AllLookedAt | db/dp_impl.cpp:274-318 | looking at every listed name leaves exactly the collected directory |
| Directory.GoneSpelledOut | db/dp_impl.cpp:282-316 | which files of it are gone, spelled out; the current manifest, CURRENT, LOCK, the info logs and foreign files stay |
| Directory.ForeignName | db/dp_impl.cpp:283 | a name that does not parse changes nothing |
| Recovery.RecoveryConserves | db/dp_impl.cpp:383-522 | the tables' records followed by the reused memtable's are exactly the logs' records in log order, none split or twice; a reused memtable holds exactly its log |
| Recovery.RecoveredEntriesExactly | db/dp_impl.cpp:452-522 | an entry is in a selected log if and only if it is in a new table or the reused memtable |
| Recovery.WrittenOutExactly | db/dp_impl.cpp:477-489 | every table written during the replay holds a memtable that has just outgrown the write buffer, the one left has not, and nothing is written if and only if no memtable on the way outgrows it |
| Recovery.ReusedExactly | db/dp_impl.cpp:493-513 | a log is reused if and only if that is wanted, it is the last, and no memtable on the way outgrows the buffer |
| Recovery.ReplayFailsExactly | db/dp_impl.cpp:465-469 | a replay fails if and only if checks are paranoid and a record of 12 bytes or more is rejected |
| Recovery.RecoveryFailsExactly | db/dp_impl.cpp:385-390 | so does the recovery of all logs |
| Recovery.RecoverFilesHold | db/dp_impl.cpp:480-521 | tables go under fresh numbers, hold exactly those entries, leave all other files alone, and every replayed log's number is used up |
| Recovery.LastSequenceIsLast | db/dp_impl.cpp:470-472 | the header arithmetic finds the batch's last number if it is not empty, and the number before its first if it is |
| Recovery.RecoverSequence | db/dp_impl.cpp:353-475 | for accepted batches nothing fails and the counter ends up at or past every number replayed and every batch's last number, and it is 0 or one of the latter |
| Recovery.RecoveredSequenceIsExact | db/dp_impl.cpp:353-475 | for accepted batches it is 0 or exactly the greatest number replayed if and only if no empty batch's last number is above every replayed one |
| Recovery.PoisonedExactly | db/dp_impl.cpp:470-475 | it is 2^64 - 1 if and only if a batch is numbered up to there or is empty and numbered 0 |
| Recovery.EmptyRecordPoisonsSequence | db/dp_impl.cpp:470-475 | an empty batch numbered 0 makes it 2^64 - 1 |
| Openings.ListingPicks | db/dp_impl.cpp:366-384 | the sorted numbers picked from a listing are the kept logs, ascending |
| Openings.RecoveryIsSound | db/dp_impl.cpp:348-403 | in every state a run can leave the database in, recovery succeeds whatever logs it passes over, with fresh numbers and a counter past all it has read; the machine may take the opening if and only if no entry gets out of reach, so always when every kept log can be read |
| Openings.FilesRecovered | db/dp_impl.cpp:452-522 | the opening's new tables bear fresh numbers and are all that changes among the tables; the log that goes on is the last one replayed, whose entries are then the memtable, or new and behind every kept one |
| Openings.OutOfReachExactly | db/dp_impl.cpp:422-429 | no entry gets out of reach if and only if every entry of a log passed over is superseded in a live or new table or is in the reused memtable |
| UnreadableLogs.SurvivesExactly | db/dp_impl.cpp:174-204 | all written entries survive in what is read from the first flush on if and only if none gets out of reach; with a new manifest that is so at once, without one all survive until then |
| UnreadableLogs.RunsOnExactly | db/dp_impl.cpp:174-211 | the opened database keeps the invariant if and only if none does |
| UnreadableLogs.CounterExactly | db/dp_impl.cpp:398-400 | the counter is past everything written if and only if it is past everything in the kept logs, and past what can be read later if and only if that holds or a new manifest forgets the logs passed over |
| UnreadableLogs.NextWriteExactly | db/dp_impl.cpp:398-400 | the next write continues the numbering if and only if the counter is past everything written |
| UnreadableLogs.OpeningExactly | db/dp_impl.cpp:174-221 | opening a reachable database leaves a reachable one, whichever calls fail, if and only if it takes no effect or leaves no entry out of reach |
| UnreadableLogs.LossHappens | db/dp_impl.cpp:425-429 | after a run from the empty database an unreadable log and a new manifest lose an entry |
| UnreadableLogs.RepetitionHappens | db/dp_impl.cpp:425-475 | without a new manifest the entry survives and the next write repeats its number |
| Openings.EntriesRecovered | db/dp_impl.cpp:452-522 | every kept log's entries are in the opening, and its tables hold nothing else |
| Scheduling.StepKeepsScheduling | db/dp_impl.cpp:141-148 | every action of every thread keeps the scheduling invariant: one job exactly when flagged, no forgotten work, requests alive, sleepers to be woken |
| Durability.WriteKeeps | db/dp_impl.cpp:876-900 | a write keeps every entry accounted for by a table or a kept log |
| Durability.SwitchKeeps | db/dp_impl.cpp:892-893 | so does a switch to a new log and memtable |
| Durability.FlushEditKeeps | db/dp_impl.cpp:572-603 | dropping the logs before the current one is sound once the immutable memtable is in a table |
| Durability.CompactEditKeeps | db/dp_impl.cpp:780-789 | replacing inputs by merged outputs leaves every entry there or superseded |
| Durability.CollectionKeeps | db/dp_impl.cpp:267-318 | collecting by the current live set and log numbers loses nothing |
| Durability.OpenedSaved | db/dp_impl.cpp:184-204 | the manifest an opening installs accounts for every entry |
| Durability.OpenedUnsaved | db/dp_impl.cpp:184-211 | and so does the old one when nothing needs installing |
| Invariants.StepKeepsInv | db/dp_impl.cpp:141-859 | every action, failed I/O and crash included, keeps the whole invariant |
| Invariants.ReachableInv | db/dp_impl.cpp:141-859 | so it holds in every reachable state |
| Guarantees.NothingIsLost | db/dp_impl.cpp:286-603 | in every reachable state the newest entry recovery can read for a key is the newest ever acknowledged, both ways |
| Guarantees.SequenceNumbersAreUnique | db/dp_impl.cpp:398-475 | sequence numbers increase strictly over the whole life of the database, recoveries included |
| Guarantees.PendingOutputsAreExact | db/dp_impl.cpp:533-548 | pending_outputs_ is exactly the numbers the outstanding job holds, empty without one, and disjoint from the live tables |
| Guarantees.CollectionSparesConstruction | db/dp_impl.cpp:267-297 | a collection now would spare a file under construction if and only if no flush is inside LogAndApply |
| Guarantees.WindowHappens | db/dp_impl.cpp:548-591 | on a run from the empty database a written table is without that protection |
| Guarantees.ConstructionIsNeverDeleted | db/dp_impl.cpp:533-859 | no step deletes a table its job is still working on, or one the manifest names, except that BuildTable removes its own file when it is empty or failed |
| Guarantees.CollectionLosesNothing | db/dp_impl.cpp:267-318 | a collection at any moment of any run loses no acknowledged entry |
| Guarantees.ErrorGuardIsNeeded | db/dp_impl.cpp:268-272 | after a failed install collecting would delete a table the manifest names; the guard stops it |
| Guarantees.BackgroundWorkIsExact | db/dp_impl.cpp:690-729 | in every reachable state: at most one job, exactly when flagged; work implies a job; sleepers have a job to wake them |
| Guarantees.NoJobAfterShutdown | db/dp_impl.cpp:141-148 | after shutdown with no job outstanding none is ever scheduled again |
| Guarantees.DestructorWaitsForTheJob | db/dp_impl.cpp:141-172 | the destructor goes on exactly when no job is outstanding, and sleeps otherwise |
| Steps.DoneExactly | db/dp_impl.cpp:742-811 | over any step a waiting caller's flag is set if and only if a job of its request finds nothing to compact or its compaction fails |
| Steps.PassGoesOn | db/dp_impl.cpp:801-813 | a pass that goes well leaves the caller waiting and the request cleared |
| Steps.CallerLeavesExactly | db/dp_impl.cpp:647-659 | a caller's turn ends its call if and only if its flag, a shutdown or an error is set; otherwise it sleeps with a request standing |
| Steps.OtherCallersStay | db/dp_impl.cpp:647-659 | it leaves everybody else's flag alone |
| Steps.ScheduledForWork | db/dp_impl.cpp:690-706 | a job is only scheduled when there is work, no shutdown and no error |
| Steps.WorkIsChosen | db/dp_impl.cpp:713-790 | a job does nothing in a closing or broken database, flushes before anything else, into a fresh protected number, then serves the manual request, then the version |
| Steps.FlushCompletes | db/dp_impl.cpp:587-599 | after a flush the memtable is gone, its entries are in a live table, and no log before the current one is left |
| Steps.CompactionReplaces | db/dp_impl.cpp:780-785 | after a compaction the edit takes the inputs out and the outputs in, and nothing else has changed |
| Steps.InstalledIsCurrent | db/dp_impl.cpp:591 | an installed edit is the version in memory and on disk |
| Steps.LeavesNoGarbage | db/dp_impl.cpp:206-208 | after a successful flush or compaction and after opening there is no table that is neither live nor pending and no log that is not kept |
| Guarantees.NullRequestExactly | db/dp_impl.cpp:801-813 | manual_compaction_ is dereferenced as NULL exactly when a manual compaction ends whose caller has left, which takes an error or a shutdown |
| Guarantees.NullRequestIsReachable | db/dp_impl.cpp:647-813 | that can follow every state in which a manual compaction is at work: the destructor starts, the caller leaves, the compaction is abandoned |
| Guarantees.NullRequestHappens | db/dp_impl.cpp:647-813 | and it does on a run from the empty database |
| Guarantees.FlushCallerStrandedExactly | db/dp_impl.cpp:663-677 | a caller waiting for the memtable goes to sleep with no job left if and only if the database is shutting down with a memtable unflushed, no error and no job |
| Guarantees.StrandedStep | db/dp_impl.cpp:663-729 | from then on exactly a recorded error or the end of the process ends its sleep |
| Guarantees.SleepLasts | db/dp_impl.cpp:663-729 | over every run without these it sleeps on |
| Guarantees.ShutdownStrandsExactly | db/dp_impl.cpp:572-813 | when the job outstanding at a shutdown is over, and no other memtable has been switched in, callers are stranded if and only if it was not flushing and nothing has gone wrong |
| Guarantees.FlushCallerCanBeStranded | db/dp_impl.cpp:663-729 | from every idle state with a switch due a state can be reached in which the caller sleeps for good |
| Guarantees.FlushCallerIsStranded | db/dp_impl.cpp:663-729 | and so from the empty database |
| DatabaseObject.DBImpl.constructor | db/dp_impl.cpp:112-138 | a new object has read the manifest and nothing else |
| DatabaseObject.DBImpl.MaybeScheduleCompaction | db/dp_impl.cpp:690-706 | takes the object where the machine's scheduling decision takes it |
| DatabaseObject.DBImpl.RecordBackgroundError | db/dp_impl.cpp:680-686 | the first error is kept and wakes everyone |
| DatabaseObject.DBImpl.ManualCompactionTurn | db/dp_impl.cpp:647-659 | is the machine's turn of a manual caller |
| DatabaseObject.DBImpl.FlushTurn | db/dp_impl.cpp:663-677 | is the machine's turn of a flush caller; it waits exactly while there is an immutable memtable and no error |
| DatabaseObject.DBImpl.StartJob | db/dp_impl.cpp:713-791 | is the machine's start of a job, with every early return |
| DatabaseObject.DBImpl.FinishJob | db/dp_impl.cpp:724-729 | is the machine's end of a job |
| DatabaseObject.DBImpl.OpenCompactionOutputFile | db/dp_impl.cpp:836-850 | a fresh number goes into pending_outputs_ and the job's outputs |
| DatabaseObject.DBImpl.BuildFlush | db/dp_impl.cpp:538-543 | is the machine's end of a build: the file holds the whole immutable memtable, or what BuildTable leaves when a call fails |
| DatabaseObject.DBImpl.InstallFlush | db/dp_impl.cpp:547-603 | is the machine's step from the build to LogAndApply |
| DatabaseObject.DBImpl.FinishCompaction | db/dp_impl.cpp:780-785 | is the machine's step after DoCompactionWork |
| DatabaseObject.DBImpl.EndCompaction | db/dp_impl.cpp:786-832 | outputs leave pending_outputs_, the collection runs, the request is settled, the job ends |
| DatabaseObject.DBImpl.EndManual | db/dp_impl.cpp:801-813 | settles whichever request is current; without one the process dies |
| DatabaseObject.DBImpl.Installed | db/dp_impl.cpp:591-602 | is the machine's step after LogAndApply, for each kind of edit and either outcome |
| DatabaseObject.DBImpl.DestructorTurn | db/dp_impl.cpp:141-172 | waits exactly while a job is scheduled; otherwise everything is released and the disk stays |
| DatabaseObject.DBImpl.DeleteObsoleteFiles | db/dp_impl.cpp:267-318 | without an error exactly the obsolete files go, by the rules spelled out; the current manifest and all names without a number stay; with an error everything stays |
| DatabaseObject.DBImpl.WriteLevel0Table | db/dp_impl.cpp:527-570 | during recovery, succeeds exactly when the build does; then the entries are in a table under the next number and in the edit, or in neither if there are none; older tables stay in any case |
| DatabaseObject.DBImpl.RecoverRecord | db/dp_impl.cpp:452-489 | one turn of the replay loop advances the specification's replay by one record, tables and counters included |
| DatabaseObject.DBImpl.ReplayLog | db/dp_impl.cpp:446-489 | the loop succeeds exactly when no record is refused and every table it fills can be written, and has then replayed the whole log |
| DatabaseObject.DBImpl.RecoverLogFile | db/dp_impl.cpp:407-525 | after one log, unreadable ones included: its groups are tables in the edit, or its memtable is the object's and its number the log's; fails exactly when a record, a table or, if paranoid, the file fails |
| DatabaseObject.DBImpl.ScanDirectory | db/dp_impl.cpp:364-375 | the scan yields the missing numbers and the logs in directory order |
| DatabaseObject.DBImpl.Recover | db/dp_impl.cpp:348-403 | succeeds exactly when nothing is missing and every log gets through; then files, counters, edit and memtable are those of RecoveredFrom and FilesFrom |
| DatabaseObject.DBImpl.OpenAndInstall | db/dp_impl.cpp:174-204 | leaves the machine's opened state, or the object deleted and on disk what recovery, the new log and the edit have left |
| DatabaseObject.DBImpl.Open | db/dp_impl.cpp:174-221 | the whole of DB::Open takes a reachable database to a reachable one if and only if it takes no effect or leaves no entry out of reach |
| DatabaseObject.DBImpl.FinishOpen | db/dp_impl.cpp:206-209 | collects and schedules as the machine does |
| ManualCompactions.ManualCompaction.Pass | db/dp_impl.cpp:742-813 | is the event Pass of the runs, or, if the compaction failed, leaves the request done with its range as it was |
| ManualCompactions.PassProgress | db/dp_impl.cpp:740-813 | every pass leaves strictly fewer files overlapping the remaining range |
| ManualCompactions.PassesAreBounded | db/dp_impl.cpp:648-655 | a request takes at most one pass per file that overlaps its range or arrives, and one more, whatever other compactions do |
| ManualCompactions.DoneLeavesExactly | db/dp_impl.cpp:625-660 | over every run, of the files on the level those that overlap the range asked for on done are exactly those among them that arrived behind the point reached |
| ManualCompactions.DoneMeansCompacted | db/dp_impl.cpp:625-660 | so nothing overlaps it if and only if no such arrival does, and in particular if there is none |
| ManualCompactions.ArrivalIsMissed | db/dp_impl.cpp:806-811 | a run in which one is left |
| ManualCompactions.NothingIsSkippedExactly | db/dp_impl.cpp:746-811 | moving the beginning keeps every other overlapping file in the range if and only if none ends before it |
| ManualCompactions.PrefixIsChosen | db/dp_impl.cpp:744-748 | on a sorted level every non-empty prefix of the overlapping files is a good choice |
| Arenas.Arena.constructor | util/arena.cpp:8-11 | nothing allocated, no block |
| Arenas.Arena.Allocate | util/arena.hpp:49-60 | is the pure allocation step; old blocks stay and new ones are fresh |
| Arenas.Arena.AllocateFallback | util/arena.cpp:19-35 | the same for a request that does not fit |
| Arenas.Arena.AllocateAligned | util/arena.cpp:37-54 | the same with alignment; a place in a block is 8-aligned |
| Arenas.Arena.AllocateNewBlock | util/arena.cpp:56-62 | one fresh block of that size, counted with a pointer |
| Arenas.RegionsAreApart | util/arena.cpp:19-54 | over any run any two regions are disjoint |
| Arenas.RegionsAreInside | util/arena.cpp:19-54 | each has the size asked for and lies inside one block, aligned if asked; only empty aligned requests get NULL |
| Arenas.ServePlaces | util/arena.cpp:37-54 | a request gets NULL if and only if it is empty and there is no standard block yet |
| Arenas.UsageExactly | util/arena.cpp:19-62 | what one request costs: nothing if it fits, else its size and 8 if over 1024 bytes, else 4096 and 8; where its place is and what is left free |
| Arenas.SlopExactly | util/arena.cpp:40-41 | alignment skips fewer than 8 bytes, and just enough |
| Arenas.RunWritesDoNotInterfere | util/arena.cpp:19-54 | writing one region changes no other |
| Arenas.SpaceBound | util/arena.cpp:19-62 | usage is the block sizes plus a pointer each and covers the bytes requested; the block sizes add up to at most 4096 plus 4/3 of the bytes requested when nothing had to be aligned, and 4096 plus 4096/3066 of the bytes requested and 7 per aligned request in general |
| RandomNumbers.Random.constructor | util/random.hpp:15-20 | the low 31 bits, with the two bad seeds replaced by 1 |
| RandomNumbers.Random.Next | util/random.hpp:22-43 | the seed becomes 16807 times itself modulo 2147483647, is returned, and is neither 0 nor 2147483647 |
| RandomNumbers.Random.Uniform | util/random.hpp:45-47 | below n: the next seed's remainder |
| RandomNumbers.Random.Skewed | util/random.hpp:49-53 | below 2^base for a base drawn from 0 to maxLog |
| RandomNumbers.ShiftAddIsStep | util/random.hpp:27-42 | no overflow, and shift-and-add is the remainder; 0 and M are the seeds that never change |
| FullCycle.OrderIsN | util/random.hpp:25-29 | the powers of 16807 are 1 exactly at the multiples of 2^31 - 2 |
| FullCycle.EverySeedIsVisited | util/random.hpp:28-29 | from any seed every other is reached within one cycle |
| FullCycle.PeriodIsExact | util/random.hpp:28-29 | a seed comes back after k steps if and only if k is a multiple of 2^31 - 2 |
| FullCycle.StepIsPermutation | util/random.hpp:25-29 | one step is one-to-one and onto the seeds |
| FullCycle.UniformIsEven | util/random.hpp:45-47 | over a whole cycle Uniform(n) gives every value equally often, up to one |
| OptionalBst.MinElement | main.cpp:144 | the leftmost minimum of the range |
| OptionalBst.AddLevels | main.cpp:136-150 | adds the sum of weight times level to the result, a position's level being the number of positions in the range that are the leftmost minimum of everything between the two |
| OptionalBst.OptionalBST | main.cpp:152-157 | returns that sum over the whole input, for every input |
| OptionalBst.CostSplits | main.cpp:142-149 | a range's cost is its minimum's share plus both sides' costs one level down |
| OptionalBst.SingleElement | main.cpp:161 | for one element the code returns the weight, which is key times weight if and only if the key is 1 or the weight 0 |
| OptionalBst.TiesGoLeft | main.cpp:144 | of two equal elements the left one is at level 1 |

## Left out

- Group commit: `DBImpl::Write` stops at `BuildBatchGroup` (db/dp_impl.cpp:892-900); a write is one action once its writer is first in line, and the writers' queue is not modelled.
- Dropping of deletion markers and of entries shadowed by snapshots in compactions; `Merges` keeps for every input entry one that supersedes it.
- A failing `GetChildren` or `VersionSet::Recover`: recovery returns at once (db/dp_impl.cpp:348-362), and `DeleteObsoleteFiles`, which ignores the error, would delete only some of the obsolete files.
- Crashes of the whole machine, which may also lose the end of a log that was not synced; and records torn by a crash, which the log reader skips.
- A directory in which a number has two names of one kind, such as a `.ldb` and an `.sst` file or two spellings of a log's number.
- `NeedsCompaction` changes only when an edit is installed or the database is opened; reads do not ask for compactions.
- Keys and values of 2^32 bytes or more, whose length prefix would be cut off.
- NothingIsLost: like every statement about reachable states, does not speak of what follows an opening that passes over an unreadable log and leaves an entry out of reach; OpeningExactly and the lemmas beside it say exactly which openings these are and what breaks.
- SequenceNumbersAreUnique: the same; NextWriteExactly says after which openings numbers repeat.
- Malformed log records in the state machine; module Recovery and class DBImpl cover them, with and without `paranoid_checks`.
- Creation of the database directory, locking, the branch for a missing database, logging, statistics, the table cache and `CompactRange`'s choice of levels.
- `VersionSet`, `MakeRoomForWrite`, `DoCompactionWork`, `MemTable`, `TableBuilder` and the log reader are not part of this model beyond the contracts above; a memtable is the sequence of its entries in insertion order.
- The level a flushed table goes to (`PickLevelForMemTableOutput`) and the sizes of tables: a table's size is its number of entries.
- BackgroundWorkIsExact: says that a job is outstanding whenever there is work, not that it eventually runs; fairness is not modelled.
- The tables dropped as empty keep their numbers; nothing is said about how many numbers a run uses up, and 64-bit overflow of the file counter is not modelled.
- `size_t` wrap-around in the arena and `int` overflow in `OptionalBST`: numbers are unbounded there.
- The destructor of the arena, and what `new[]` does when memory runs out.
- `OptionalBSTDP` and `BST::Insert` in main.cpp, which have no stable meaning (a memo table that is never filled, a comma expression as a test); `BST::IsSame` is left out as easy.
- `util/env_posix.cpp`, `other/`, `include/cache.hpp`, `include/table.hpp`, `db/skiplist.hpp`, option clipping and status strings.
