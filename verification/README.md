# NewtonDB, modelled and proved

NewtonDB is an in-memory document database written in TypeScript. Transactions are optimistic: each
remembers the revision of every collection it touches, edits overlay maps and copy-on-write index
buckets that share structure with the committed root, and publishes one new root if nothing it
touched has moved. Snapshots go to storage through an asynchronous coordinator and a conditional-store
adapter; the file adapter replaces its file through a temporary file, a sync, a rename and a directory
sync. Documents, conditions and stored files come from outside and pass through bounded parsers.

This project models those parts and proves what they promise, over every input, every run and every
crash. `dafny verify dfyconfig.toml` checks all of it.

## How it is laid out

| files | what they hold |
|---|---|
| `Text`, `Json`, `Key`, `Path` | UTF-16 texts, JSON values, the key and index-value encodings, property paths and their pointer form |
| `Where`, `ParseWhere`, `Sizes` | conditions: direct meaning, compilation, and the budgeted parser; serialized sizes in UTF-8 bytes |
| `Collection`, `Operations`, `Checker`, `Reload`, `Loading` | one collection as a value, its operations and invariant; what the operations mean to a caller and when each is refused; `verify()`; building and snapshotting |
| `Ordering`, `Query` | the value order, sorting, the three query plans |
| `Engine`, `Serializability`, `Commits`, `Changes`, `Events` | transactions over a committed root as a state machine; serial equivalence; when a transaction commits; the change feed and the event queue |
| `Overlay`, `Working`, `Transactions`, `Interleaving`, `Opening` | the object graph: overlay layers, shared buckets, transaction and database objects, any schedule of them, and the way there from documents |
| `Persistence`, `Progress`, `Coordinator`, `Restart` | the coordinator and a conditional store as a state machine and as objects: what it never does, and what it does for its callers; opening again |
| `SnapshotFile`, `Serialize` | the bytes of a stored snapshot, what a writer and what a reader asks of them; the serializer against the scanner |
| `Disk`, `FileAdapter`, `CrashSafety`, `Oversized` | a disk that loses power, the replacement and recovery protocol on it, whole lifetimes, and a snapshot that is written and cannot be read |
| `EndToEnd` | the coordinator over the file adapter, through losses of power |
| `Grammar`, `Spelling`, `Scanner` | JSON as RFC 8259 writes it, what escapes spell, and the scanner that rejects duplicate names |
| `Clone` | the bounded clone of an object graph |

The engine appears twice. `Engine` and `Collection` treat collections as values, which is where the
theorems about runs are proved. `Overlay`, `Working`, `Transactions` and `Interleaving` are the classes,
with layers standing on layers and buckets shared until written; every method there is proved to do to
the objects what the value-level function does to the value, and to write nothing that is committed. The
coordinator, the event queue, the file adapter, the scanner, the clone and the parser have the same two
forms: a function that says what is computed, and a class or method with the source's loops and counters
proved against it.

## What the main theorems say

* **Serializability.** For every interleaving of any number of transactions, running only the committed
  ones, alone and in commit order, gives the same root, and gives each of them the same replies and
  receipts (`Serializability.Serializable`); the shared object graph obeys it too
  (`Interleaving.Interleave`, and from documents on `Opening.OpenAndRun`), and no step changes a layer or a
  bucket set reachable from what was committed before (`Interleaving.Handle`).
* **Commits.** A transaction commits exactly when the database is open and nobody has since published to a
  collection it had looked at (`Commits.CommitsIffUndisturbed`), so one run alone always does
  (`Commits.AloneCommits`); what a commit publishes, counts and reports is stated in full
  (`Commits.CommitsExactly`).
* **Operations.** Insertions, updates, deletions, reads and finds succeed exactly under the stated conditions
  and otherwise report the first that failed (`Operations.InsertExactly`, `Operations.UpdateExactly`,
  `Operations.DeleteMeans`, `Operations.PutFailsExactly`, `Operations.GetExactly`, `Operations.FindExactly`,
  `Operations.MutateExactly`); a transaction reads and finds what it has written (`Operations.OwnWritesSeen`);
  collections load exactly from documents that do not clash (`Loading.LoadsExactly`).
* **Invariant.** Every reachable collection, committed or working, after failed operations as well, has a
  duplicate-free order matching its records, rising positions, exact indexes without empty buckets and
  unique buckets of at most one key (`Engine.RunKeeps`), so `verify()` never raises
  (`Changes.VerifyHolds`).
* **Queries.** A condition means what each operator says of the value read (`Conditions.EvalMeans`), compiled or
  not. Whichever plan is chosen the answer is the same (`Queries.Query`); an ordered answer is the slice of the
  one sorted permutation of the matches (`Queries.OrderedAnswer`), and which order that is, is stated without
  the comparator (`Ordering.CompareDocsMeans`, `Queries.AnswerInOrder`, `Queries.LeadingFieldRises`).
* **Durability.** Installed snapshots have consecutive generations, rising revisions, and hold what was
  committed at the revision they name (`Persistence.InstallsInOrder`); nobody is told of durability that
  storage does not have (`Persistence.DurabilityIsHonest`); with an adapter that stores and answers, every
  call that waits resolves, except for failures already told (`Progress.CallsResolve`); what is in storage
  opens as the database it was (`Restart.RestartRecovers`).
* **Crash safety.** `CrashSafety.Live` turns any sequence of openings, stores, failing steps and losses of
  power into a run with one entry for each. In every run from a healthy directory, any crash leaves the
  primary one complete snapshot and the backup it or its predecessor (`CrashSafety.RunSteady`), no crash
  alone leads to the recovery refusal (`CrashSafety.RunAnswers`), and what was acknowledged with a real
  directory sync survives, and is found again, until an opening rolls back (`CrashSafety.RunDurable`,
  `CrashSafety.RunFindsAcked`), for certain where everything stored can be read back
  (`CrashSafety.RunFindsForCertain`). `CrashSafety.Lifetime` has it all from the empty directory.
* **End to end.** With the coordinator over the file adapter, the database that opens after a loss of power at
  any moment, if it opens and without rolling back, is one that was committed, answers every query alike, and,
  directory syncs being real, is at no older revision than any call had resolved for
  (`EndToEnd.DurableComesBack`, `EndToEnd.AnswersComeBack`).
* **Parsers.** The scanner accepts exactly the JSON texts within its limits (`Scanners.AcceptsExactly`), and
  finds a repeated name however it is spelled (`Scanners.RepeatsRefused`); the
  clone returns exactly the tree unfoldings within theirs, and decides size exactly
  (`Cloning.ClonesExactly`, `Cloning.SizeDecidedExactly`); the condition parser accepts exactly what spells
  a condition within its budgets (`QueryParsing.ParsesExactly`); pointers and paths are in bijection
  (`Paths.ParseFormat`, `Paths.FormatParse`).
* **Events.** Batches fold the old records into the new (`Changes.FeedFolds`), each is in exactly one place
  (`Events.EachInOnePlace`), and a batch overflows exactly when there is no room for it
  (`Events.OverflowsExactly`).

## Where a promise holds only under a condition

* The closing and closed states are overwritten by a store that fails afterwards. `Engine` therefore has a
  step that reopens, the lifecycle is proved for runs in which nothing fails after `close()`
  (`Persistence.CloseHolds`), the moves that break it are characterised exactly
  (`Persistence.ReopensExactlyOnFailure`, `Persistence.CloseReopensExactlyOnFullQueue`), and
  `Persistence.FailureAfterCloseReopens` is such a run.
* The coordinator checks an acknowledgement's identity, generation and revision, and cannot see whether
  anything was stored. Honesty therefore needs every accepted acknowledgement to be of a store that happened
  and to name its revision; the model counts those that are not, and `Persistence.LateAckIsBelieved` and
  `Persistence.PhantomAckIsBelieved` show what happens otherwise. The order of installs needs no such premise.
* A store that was installed but whose answer was lost stops all further persistence
  (`Persistence.TearsExactlyOnLostAnswer`, `Persistence.TornForever`), as long as no store that did not happen
  is acknowledged, which is exactly what ends it (`Persistence.TornStays`).
* A directory sync that the platform does not support is treated as success; an acknowledged file is beyond
  the reach of a crash exactly when the sync was real (`CrashSafety.AckSurvivesExactly`), and
  `CrashSafety.SkippedSyncLoses` is a run in which it is lost.
* A write is limited in bytes, a read also in values (`SnapshotFiles.ReadableExactly`). A snapshot between the
  two limits is stored and acknowledged, and from then on every store fails, and every opening refuses or,
  with recovery permitted, puts the older backup in its place, although nothing failed
  (`CrashSafety.NothingStoredOver`, `CrashSafety.OversizedIsLost`; `Oversizing.AcknowledgedAndLost` is such a
  run under the default limits). The
  same happens to a file reopened with a smaller limit in bytes. A caller can tell before storing, and where
  every snapshot stored can be read back openings are certain (`CrashSafety.RunReadable`).
* A read that fails on an intact primary sends loading to the backup. `CrashSafety.RollsBackExactly` says when
  an opening replaces the newer file by the older, and `CrashSafety.FailedReadRollsBack` is a run in which an
  acknowledged snapshot is lost that way.
* Closing empties the event queue without resetting its counter (`Events.ClearLeavesCounter`): discarded changes
  go on taking up room (`Events.OverflowsExactly`).

Decision record 0003 says `flush` is rejected while degraded. The code allows it (src/database.ts:778-795),
and so does the model.

## Model

| member | source | states |
|---|---|---|
| Keys.EncodeKeyInjective | src/key.ts:5-17 | Two primary keys that have the same encoding are the same key, so a record slot names one key. |
| Keys.EncodeIndexValueInjective | src/key.ts:19-26 | Two primitive index values share a bucket only if they are equal; the tags and the length prefix keep types and strings apart. |
| Keys.DocumentKey | src/key.ts:28-40 | A key read from a document is always one that can be encoded. |
| Keys.DocumentKeyMeans | src/key.ts:5-40 | Keys are the non-empty strings and the safe integers, and a document's key is the value of its key property, if that is one. |
| Paths.ValidatePath | src/path.ts:69-95 | The copying loop accepts exactly the paths of 1 to `maxTokens` tokens whose first is a name and whose numbers are non-negative safe integers, and returns them unchanged. |
| Paths.ReadPathLoop | src/path.ts:45-67 | The loop over the tokens reads the value that recursion on the path defines, with a missing step ending in nothing. |
| Paths.ReadPathMeans | src/path.ts:45-67 | The value read at a path is the one its tokens lead to, each to an element of an array or an own property of an object; nothing is read otherwise. |
| Paths.DecodeEncode | src/path.ts:7-27 | Decoding an encoded token gives the token back, and no encoding contains the separator, so the two replacement passes are in the right order. |
| Paths.EncodeDecode | src/path.ts:7-27 | Encoding a decoded token gives its text back, escape by escape and digit by digit. |
| Paths.TokenSpelled | src/path.ts:7-27 | A pointer writes an element as its number after `~n`, and in a name `~0` for a tilde and `~1` for a slash, unit by unit. |
| Paths.ParseFormat | src/path.ts:30-43 | Parsing the formatted pointer of a valid path returns that path. |
| Paths.FormatParse | src/path.ts:30-43 | Formatting what was parsed from an accepted pointer returns that pointer: the codec is a bijection between valid paths and accepted pointers. |
| Paths.SamePath | src/path.ts:97-102 | The token-by-token comparison is equality of paths. |
| Conditions.CompileMeansEval | src/query.ts:347-421 | The closures built once from the AST give, on every document, the value of the AST evaluated directly. |
| Conditions.EvalMeans | src/query.ts:355-419 | A document satisfies a condition exactly when what it says is so: each comparison as its operator says of the value read, `in` by membership, the rest by their parts. |
| Conditions.CompareMeans | src/query.ts:374-417 | Operator by operator: the four orders hold between numbers and between strings only, and there by size and code units; `contains`, `startsWith` and `endsWith` when there are texts around the value. |
| Conditions.OrdersMean | src/query.ts:333-345 | On a value of another kind, or none, no order holds; on one of the same kind exactly one of less, equal and greater. |
| Texts.TextLessMeans | src/query.ts:379-404 | A string comes before another when it is a proper prefix of it or has the smaller code unit where they first differ. |
| QueryParsing.ParsesExactly | src/query.ts:188-324 | An input is accepted as a condition if and only if every limit is a positive safe integer, the input spells that condition, in any key order, and the condition is well shaped and within the node, depth, path, set and scalar-byte budgets. |
| QueryParsing.ReparsesUnchanged | src/query.ts:188-324 | The AST that parsing returns, written out again, parses to itself under the same limits. |
| QueryParsing.NodeSound | src/query.ts:211-322 | An accepted node has spent exactly its own nodes and scalar bytes, and these stay within the shared budgets. |
| QueryParsing.NodeComplete | src/query.ts:211-322 | A node that spells a condition within what is left of the budgets is accepted, whatever was spent before it. |
| QueryParsing.ConsumedAll | src/query.ts:201-210 | Consuming a list of scalars one by one succeeds exactly when each fits and the total does. |
| QueryParsing.FindsOperator | src/query.ts:166-177 | Each operator is found under its own name and no other. |
| QueryParsing.OperatorNames | src/query.ts:166-177 | The names under which a query spells the operators. |
| QueryParsing.KeyNames | src/query.ts:237-247 | The keys that each operator allows beside its own name. |
| QueryParsing.WrittenSpells | src/query.ts:261-321 | The object form of any condition spells that condition. |
| QueryParsing.Parser.Visit | src/query.ts:211-322 | The recursive method over the shared counters does what the parsing function says, error by error. |
| QueryParsing.Parser.ConsumeScalar | src/query.ts:201-210 | Charges a scalar's serialized bytes against both limits. |
| QueryParsing.ParseAndCompile | src/query.ts:188-421 | Limits that are not positive safe integers are refused first; the returned predicate means, on every document, the condition the input spells. |
| Collections.ExactIsUnique | src/database.ts:433-457 | The records determine an index: two indexes that are both exact for the same records are equal. |
| Collections.PutBack | src/database.ts:308-353 | Taking a stored document out of an index and adding it again never fails and restores the index. |
| Collections.ReindexKeeps | src/database.ts:1435-1445 | Replacing a document in the indexes either files exactly the new one or, on failure part way, leaves every index as it was. |
| Collections.PutKeeps | src/database.ts:1435-1452 | Writing a record keeps the invariant, for a new slot and for a replaced one; a failed write changes nothing. |
| Collections.WithoutKeepsOrder | src/database.ts:1527-1530 | Splicing a key out of the order keeps it duplicate-free, matching the records, with rising positions. |
| Collections.DeleteKeeps | src/database.ts:1517-1540 | Deletion keeps the invariant. |
| Collections.ApplyKeeps | src/database.ts:1419-1540 | Every insert, upsert, update and delete keeps order, positions, exact indexes and unique buckets, and a failed one leaves the collection equal to what it was. |
| Checker.AssertInvariant | src/database.ts:388-459 | The rebuilding loops accept a collection if and only if it satisfies what they look at. |
| Checker.CheckedIsMostOfValid | src/database.ts:388-459 | What the checker accepts, together with uniqueness, the next position and the schema conformance it does not look at, is exactly the invariant. |
| Checker.Rebuild | src/database.ts:434-441 | The loop rebuilds the exact index, or stops at a document that cannot be indexed. |
| Checker.SameBuckets | src/database.ts:442-457 | Comparing sizes and members bucket by bucket decides equality of the two maps. |
| Checker.OrderHolds | src/database.ts:400-422 | The pass over the order accepts exactly the duplicate-free orders whose neighbours rise. |
| Reload.CreateIndexes | src/database.ts:286-306 | Index definitions are accepted exactly when names are non-empty and distinct and paths valid. |
| Reload.CreateStoredCollection | src/database.ts:461-490 | The loop over the documents builds what loading them one after another defines, failing with the first error. |
| Reload.LoadedIsValid | src/database.ts:461-490 | Whatever loads satisfies the invariant and holds the documents in order, numbered from zero. |
| Loading.LoadsExactly | src/database.ts:461-490 | A list of documents loads exactly when the index definitions are in order, the schema takes each document, and no two have the same key or the same value in a unique index. |
| Reload.CloneSnapshotCollections | src/storage.ts:163-189 | The clone holds each collection's documents in order, and fails only on an order that names a missing record. |
| Reload.ReloadRoundTrip | src/storage.ts:163-189 | Snapshotting any valid collection and loading the documents under its schema succeeds and gives the same records, order and indexes, renumbered from zero. |
| Operations.MergeLookup | src/database.ts:1641-1680 | A merged document has the patch's properties, and the others of the stored one. |
| Operations.MergeNames | src/database.ts:1641-1680 | The stored document's properties keep their places, and the patch's new ones follow in the patch's order. |
| Operations.UpdateMeans | src/database.ts:1474-1514 | A successful update leaves the merged document under the same key and in the same place; the record being absent is exactly when it reports not found. |
| Operations.UpdateExactly | src/database.ts:1475-1514 | An update succeeds exactly when the key is usable and its record there, the patch is an object, the merged document is within the limits and passes the validator under the same key, and no index blocks it; otherwise it changes nothing and reports the first of these that failed. |
| Operations.InsertMeans | src/database.ts:1419-1471 | A successful insertion stores the input, plus the generated key where it has none, last in the order; it replaces a record only when upserting, in place. |
| Operations.InsertExactly | src/database.ts:1419-1472 | An insertion succeeds exactly when the input is within its limits and gets a key where it needs one, the document passes its own checks, the key is free or the call an upsert, and no index blocks it; it stores just that document, and otherwise changes nothing and reports the first of these that failed. |
| Operations.DeleteMeans | src/database.ts:1517-1540 | Deletion succeeds exactly when the record is there, removes it alone, and the rest keep their relative order. |
| Operations.PutFailsExactly | src/database.ts:308-333 | A valid document is refused exactly when its value at some index is not a primitive, or a unique index has that value for another record. |
| Operations.OwnWritesSeen | src/database.ts:1387-1395 | After a successful write a transaction reads what it wrote, and everything else as before. |
| Operations.GetExactly | src/database.ts:1387-1395 | A read is refused exactly for a collection out of reach or an unusable key, and otherwise answers with the transaction's own record or the committed one. |
| Operations.FindExactly | src/database.ts:1398-1416 | A find is refused exactly for a collection out of reach or of more than 100,000 records, and otherwise answers with the records of the transaction's own working collection, or the committed one, that satisfy the condition, each once, in collection order. |
| Operations.MutateExactly | src/database.ts:1547-1600 | A write is refused exactly past the operation limit, for a collection out of reach, or where the collection refuses it; it counts as an operation either way, and one that succeeds adds one change. |
| Ordering.CompareJsonLaws | src/database.ts:524-542 | The comparison is antisymmetric and transitive by sign on all JSON values and the missing one. |
| Ordering.CompareJsonMeans | src/database.ts:524-542 | The order of values: booleans with false first, numbers by size, strings by code units, arrays and objects without distinction, null, and last what is missing. |
| Ordering.CompareDocsMeans | src/database.ts:907-919 | One document comes before another by the first ordering field on which they do not tie, reversed where it is descending, and by ascending primary key if they tie on all. |
| Ordering.CompareRankedLaws | src/database.ts:907-919 | The whole comparator, fields in their directions, then primary key, then place, is antisymmetric and transitive by sign. |
| Ordering.StrictTotalOrder | src/database.ts:907-919 | On documents with different primary keys exactly one of two comes first, and coming first is transitive. |
| Ordering.DifferentKeysDiffer | src/database.ts:915-918 | Documents with different primary keys never compare equal. |
| Ordering.SortDocsAscending | src/database.ts:905-920 | Sorting documents with distinct keys gives a strictly ascending permutation of them. |
| Ordering.AscendingUnique | src/database.ts:905-920 | There is one strictly ascending arrangement of a set of documents, so the result does not depend on the sort or on candidate order. |
| Queries.SortBucket | src/database.ts:858-865 | A bucket's keys come out once each, in position order. |
| Queries.Candidates | src/database.ts:844-868 | The candidates of the primary, secondary and scan plans are in collection order and miss no match. |
| Queries.MatchingSlots | src/database.ts:881-893 | The selected keys are the candidates whose record exists and satisfies the condition, no more and no fewer. |
| Queries.SelectIsDocsAt | src/database.ts:881-893 | Selecting documents along a list yields the records of exactly those keys, in order. |
| Queries.SufficientSelects | src/database.ts:881-893 | Any candidate list in collection order that misses no match selects exactly the matching documents, in order. |
| Queries.ScanCandidates | src/database.ts:879-895 | The loop that counts, skips the offset and stops at the limit equals filtering everything and slicing, and never reaches its result limit. |
| Queries.SortCandidates | src/database.ts:897-933 | The ordered branch equals sort then slice, and never reaches its two later limits. |
| Queries.QueryWith | src/database.ts:835-934 | Under any applicable plan a query is refused only for too many candidates and otherwise returns the one plan-independent answer. |
| Queries.Query | src/database.ts:835-934 | With at most 100,000 records, whichever plan is chosen, the result is the answer: match, order, window. |
| Queries.OrderedAnswer | src/database.ts:897-933 | An ordered answer is the slice of the one sorted permutation of the matches. |
| Queries.AnswerInOrder | src/database.ts:897-933 | Every document of an ordered answer comes before every later one in that order. |
| Queries.LeadingFieldRises | src/database.ts:897-933 | The leading field never runs backwards: numbers and strings there do not decrease, or do not increase when it is descending. |
| Queries.UnorderedAnswer | src/database.ts:879-895 | Without an order the answer is the window of the matching records, each once, in collection order. |
| Queries.SliceMeans | src/database.ts:923-933 | The window: after the offset, as many documents as there are, up to the limit. |
| Queries.PlansExactly | src/database.ts:505-522 | A lookup is chosen exactly for equality: by primary key on the key property, otherwise through the first index on the path. |
| Queries.AnswerDependsOnRecords | src/database.ts:835-934 | Answers depend on records and order only, not on positions or revision. |
| Engine.DoKeeps | src/database.ts:1387-1596 | No operation of a transaction, failed or not, breaks the invariant of any working collection or forgets a touched one. |
| Engine.PublishKeeps | src/database.ts:964-987 | Publishing working collections keeps every committed collection valid. |
| Engine.StepKeeps | src/database.ts:937-1014 | Every step of every transaction keeps all committed and all working collections valid. |
| Engine.RunKeeps | src/database.ts:937-1014 | So does every run, of any number of interleaved transactions. |
| Serializability.DoFrame | src/database.ts:1387-1596 | An operation's reply and effect depend only on the committed collections the transaction has touched. |
| Serializability.ReplayFrame | src/database.ts:1565-1596 | A transaction replayed alone on a root that agrees on what it touched gets the same replies and ends in the same state. |
| Serializability.PublishTracked | src/database.ts:945-952 | After another commit a transaction is still what it would be running alone on the new root, or it has touched something replaced and can never commit. |
| Serializability.RunAccounted | src/database.ts:937-1014 | That holds for every active transaction at every point of every run. |
| Serializability.Serializable | src/database.ts:937-987 | For every interleaving, running only the committed transactions, alone and in commit order, from the seed gives the same root, and gives each the same replies and the same receipt. |
| Commits.CommitsExactly | src/database.ts:937-1015 | A commit is acknowledged exactly when the database is open and every collection touched still has the revision noted; it then publishes what was written, if anything, under a receipt that counts the changes, and refused it leaves no trace. |
| Commits.RollsBackExactly | src/database.ts:1359-1365 | A rollback leaves nothing of the transaction and changes nothing else. |
| Commits.FinishedStays | src/database.ts:1540-1545 | A transaction that is committed or rolled back is never touched again. |
| Commits.StepDisturbs | src/database.ts:945-951 | One step of the system puts an active transaction behind exactly when another commits that has written to a collection it had looked at. |
| Commits.CommitsIffUndisturbed | src/database.ts:937-1015 | Whatever happened before and happens meanwhile, an active transaction commits exactly when the database is then open and no commit since it began wrote to a collection it had looked at by then. |
| Commits.AloneCommits | src/database.ts:744-771 | A transaction run alone on an open database always commits, whatever it does. |
| Changes.ApplyExplained | src/database.ts:1453-1461 | A successful write changes one record and reports what was there before and after. |
| Changes.ReplayExplained | src/database.ts:1419-1540 | A transaction's recorded changes fold the root's records into the ones it would publish. |
| Changes.StepPublishes | src/database.ts:954-1014 | A step moves the revision exactly when it publishes a batch, by one, and the batch turns the records before into those after. |
| Changes.FeedFolds | src/database.ts:986-1006 | Over any run the published batches, one per revision, fold the seed's records into the committed ones, each change fitting the record it replaces. |
| Changes.ReceiptsNumbered | src/database.ts:954-1014 | A receipt carries the seed's revision plus the writers committed up to and including it. |
| Changes.VerifyHolds | src/database.ts:691-696 | At no point of any run does `verify()` find a violation. |
| Events.EventQueue.Enqueue | src/database.ts:1120-1136 | A batch over either bound is dropped to the overflow hook; otherwise it is queued, counted, and a dispatch is scheduled once. |
| Events.EventQueue.Dispatch | src/database.ts:1137-1154 | The loop delivers until the queue is empty, including what listeners add while they are called, and then allows the next schedule. |
| Events.PlayKeeps | src/database.ts:1120-1155 | Along any run of commits, deliveries and closing: bounds hold, the counter is exact until a close discards something, every published batch is accounted for and delivered revisions strictly increase. |
| Events.EachInOnePlace | src/database.ts:1120-1155 | Each published batch is in exactly one place: delivered, being delivered, waiting, overflowed or discarded by close. |
| Events.OverflowsExactly | src/database.ts:1120-1136 | Along any run a published batch overflows exactly when the queue holds its maximum of batches, or the changes waiting, those ever discarded by closing and its own exceed the maximum of changes; otherwise it is the last one waiting. |
| Events.ListenersSeeRecords | src/database.ts:989-1006 | A listener that folds what it is given, after a dispatch that lost nothing, holds the committed records. |
| Events.DispatchDrains | src/database.ts:1137-1154 | Without further commits a dispatch delivers everything that waited, in order, and empties the counter. |
| Events.ClearLeavesCounter | src/database.ts:817-819 | Closing empties the queue and not its counter: the counter is right afterwards exactly when no change was waiting. |
| Layers.IterationEnumerates | src/overlay-map.ts:86-97 | The two halves of the iteration yield each key of the layered map exactly once, with its value. |
| Layers.ReinsertedKeepsPlace | src/overlay-map.ts:86-97 | A key deleted and set again keeps its place in the iteration exactly when the map below has it, under any other deletions and updates, and goes to the end otherwise, where a JavaScript Map always moves it to the end. |
| Overlays.OverlayMap.Reinsert | src/overlay-map.ts:24-53 | On the object: `delete` then `set` of a present key leaves the order of iteration as it was if the layers below have the key, and moves the key to the end if not. |
| Overlays.OverlayMap.Get | src/overlay-map.ts:33-37 | Lookup through the layers is lookup in the flat map they represent. |
| Overlays.OverlayMap.Has | src/overlay-map.ts:39-44 | And so is membership. |
| Overlays.OverlayMap.Set | src/overlay-map.ts:46-53 | Setting updates the flat map and the tracked size, and is refused once sealed. |
| Overlays.OverlayMap.Delete | src/overlay-map.ts:24-31 | Deleting removes from the flat map, tells whether the key was there, and is refused once sealed. |
| Overlays.OverlayMap.Entries | src/overlay-map.ts:86-97 | The generator's loops enumerate the flat map, in the order of the layers below followed by that of the new keys. |
| Overlays.OverlayMap.Seal | src/overlay-map.ts:55-61 | Sealing preserves the contents, and compacts exactly when the chain is 32 deep or the layer changed too much. |
| Overlays.OverlayMap.constructor | src/overlay-map.ts:10-14 | A new layer on a sealed result represents the same map, one deeper at most. |
| Overlays.Replayed | src/overlay-map.ts:10-61 | For every sequence of sets, deletes and re-layerings on sealed results, lookups, size and iteration agree with one flat map and the depth never exceeds 32. |
| WorkingSets.FileUnder | src/database.ts:324-332 | Filing a key under a value replaces a shared bucket by a copy and leaves the shared one alone. |
| WorkingSets.Unfile | src/database.ts:341-352 | Removing a key copies the bucket and drops it when it becomes empty. |
| WorkingSets.AddToIndexes | src/database.ts:308-333 | All indexes are checked before any is changed; the result is the added indexes or the first error with nothing changed. |
| WorkingSets.RemoveFromIndexes | src/database.ts:335-353 | Removal from every index, over shared buckets. |
| WorkingSets.CloneIndexes | src/database.ts:355-368 | Fresh layers over the committed bucket maps represent the same indexes. |
| WorkingSets.SealIndexes | src/database.ts:370-386 | Sealing every index preserves what it represents. |
| WorkingSets.MakeStored | src/database.ts:571-620 | The frozen record of a loaded collection, over new maps and new bucket objects, represents that collection. |
| WorkingSets.MakeWritable | src/database.ts:1580-1596 | A working copy is new layers over the committed maps and represents the committed collection. |
| WorkingSets.PutBackNeverFails | src/database.ts:1441-1445 | The restoring `addToIndexes` in the error path cannot itself fail. |
| WorkingSets.WorkingCollection.Insert | src/database.ts:1419-1471 | Insertion and upsertion on the object graph leave it representing what the operation defines, with the same outcome. |
| WorkingSets.WorkingCollection.Update | src/database.ts:1474-1514 | Likewise update, including the indexes being put back when the new document cannot be filed. |
| WorkingSets.WorkingCollection.Delete | src/database.ts:1517-1540 | Likewise deletion. |
| WorkingSets.WorkingCollection.SealAll | src/database.ts:966-979 | Sealing for publication represents the same collection at the new revision. |
| Transactions.Database.constructor | src/database.ts:571-620 | A database over loaded collections is open, represents exactly them, and shares no object with anything else. |
| Opening.Open | src/database.ts:571-620 | There is a database exactly when the snapshot's collections are those of the schema and each loads; it is open, at the snapshot's revision, and holds what was loaded. |
| Opening.OpenAndRun | src/database.ts:571-620 | Opening documents and running any schedule of transactions on the objects ends where the committed transactions, run one after another on what was loaded, would have ended. |
| Transactions.Database.Install | src/database.ts:986-987 | Publication replaces the root by one in which the published collections take the place of the old ones. |
| Transactions.Transaction.Touch | src/database.ts:1565-1578 | First touch records the revision, within the read-collection limit. |
| Transactions.Transaction.Writable | src/database.ts:1580-1596 | First write makes one working copy, over layers that did not exist before. |
| Transactions.Transaction.Mutate | src/database.ts:1419-1540 | One write on the object graph has the effect and reply the state machine defines, and writes only what the transaction owns. |
| Transactions.Transaction.Get | src/database.ts:1387-1395 | A read sees the transaction's own writes, else what is committed now. |
| Transactions.Transaction.Find | src/database.ts:1398-1416 | A transactional query returns the matches of that view in order, or the limit it exceeds. |
| Transactions.Transaction.Rollback | src/database.ts:1359-1365 | Rollback drops everything the transaction holds and writes nothing else. |
| Transactions.Transaction.Conflicts | src/database.ts:945-952 | The check reports a conflict exactly when a touched collection has another revision. |
| Transactions.Transaction.Commit | src/database.ts:1367-1384 | Commit refuses, acknowledges or publishes exactly as the state machine says. |
| Transactions.Transaction.Publish | src/database.ts:965-987 | Sealing the working table and installing it yields the root the state machine publishes. |
| Interleaving.Handle | src/database.ts:1335-1596 | Any event on any number of transaction objects sharing one database does what the state machine says, and changes no layer and no bucket set reachable from what was committed before it. |
| Interleaving.Interleave | src/database.ts:1335-1596 | Every schedule run on the shared object graph has the state machine's history, and ends where running the committed transactions alone would have ended, each having seen what it would have seen. |
| Persistence.AdvanceCore | src/database.ts:1044-1110 | Every move of callers, coordinator and adapter keeps the chain, the pace of generations, the tickets and the provenance of every snapshot. |
| Persistence.PersistKeeps | src/database.ts:1044-1061 | Asking to persist the current revision reuses its unsettled task, queues a snapshot of the committed root, or records a failure when the queue is full. |
| Progress.AsksExactly | src/database.ts:1044-1061 | Asking for the current revision to be stored waits for a store of it that is underway; is declined, degrading the database, exactly when there is none and the queue is full; and otherwise queues a snapshot of what is committed. |
| Progress.FlushesExactly | src/database.ts:778-795 | Flushing asks exactly while the database is open or degraded. |
| Progress.CommitsDurablyExactly | src/database.ts:744-771 | A durable transaction asks exactly when it commits, for the revision then current. |
| Progress.ClosesExactly | src/database.ts:797-827 | Closing asks exactly the first time, with the database no longer accepting transactions, and waits for that. |
| Progress.FinishesExactly | src/database.ts:806-824 | The adapter is closed and the database shut exactly when what closing waits for is over. |
| Progress.AnswersExactly | src/database.ts:1072-1099 | An answer is a success exactly when it acknowledges this database, the next generation, and the revision stored or a later one; what either outcome changes is stated in full. |
| Progress.DrainSeesThrough | src/database.ts:1061-1110 | An adapter that stores what it is given and says so sees the whole queue through, in order, and opens a degraded database that has caught up. |
| Progress.CallsResolve | src/database.ts:718-827 | Wherever a run has got to, with storage in step and the adapter open: such an adapter leaves nothing pending, and every call resolves except those declined and those whose store had failed. |
| Persistence.InstallsInOrder | src/database.ts:1044-1110 | Over every schedule, whatever the adapter answers, installed snapshots are of one database, have consecutive generations and strictly rising revisions, and each holds the documents committed at the revision it names. |
| Persistence.RevisionNamesRoot | src/database.ts:964-987 | Within a run a revision names one root. |
| Persistence.DurabilityIsHonest | src/database.ts:718-795 | As long as every accepted acknowledgement is of a store that happened and names its revision, a call resolves for a revision only when storage holds at least that revision; while the state is open every revision reported failed is covered; the pending counter is the number of unsettled stores, within its limit. |
| Persistence.CloseHolds | src/database.ts:797-827 | After `close()`, as long as no store fails, no transaction is accepted, the state never goes back, and a close that resolves leaves every revision stored. |
| Persistence.OpensExactlyOnCatchingUp | src/database.ts:1090-1095 | A degraded database is open again exactly when a store succeeds that leaves nothing committed unpersisted. |
| Persistence.ReopensExactlyOnFailure | src/database.ts:1096-1099 | Once closing, a move makes the database accept transactions again exactly when it is the failure of a store. |
| Persistence.CloseReopensExactlyOnFullQueue | src/database.ts:1049-1058 | `close()` itself leaves it accepting transactions exactly when the current revision is neither stored nor being stored and the queue is full. |
| Persistence.FailureAfterCloseReopens | src/database.ts:1096-1099 | A run in which a store that fails after closing leaves the database degraded and accepting transactions. |
| Persistence.LateAckIsBelieved | src/database.ts:1076-1089 | An acknowledgement that passes every check and names a later revision is believed. |
| Persistence.PhantomAckIsBelieved | src/database.ts:1076-1089 | So is an acknowledgement of a store that never happened: the flush resolves over empty storage. |
| Persistence.TearsExactlyOnLostAnswer | src/database.ts:1072-1099 | Storage gets a generation ahead of the coordinator exactly when a store was installed and its answer not accepted. |
| Persistence.TornStays | src/database.ts:1061-1099 | One move keeps them parted, storing nothing, unless it accepts an acknowledgement of a store that did not happen, and then they are together again. |
| Persistence.TornForever | src/database.ts:1061-1099 | From then on nothing more is stored and a degraded database never recovers, until storage is opened afresh or a store that did not happen is acknowledged. |
| Coordinators.MemoryAdapter.Store | src/testing/index.ts:77-98 | Stores exactly the next generation after the one expected, and only if that is what is stored and of the same database; the acknowledgement names it. |
| Coordinators.MemoryAdapter.Load | src/testing/index.ts:67-75 | Loads once, and not after closing. |
| Coordinators.Coordinator.Persist | src/database.ts:1044-1061 | The method over the fields does what the state machine says. |
| Coordinators.Coordinator.CommitDurably | src/database.ts:763-770 | The end of a durable transaction: commit, then wait unless the revision is already persisted. |
| Coordinators.Coordinator.Flush | src/database.ts:778-795 | Allowed while open or degraded; waits for the current revision or for the tail. |
| Coordinators.Coordinator.Close | src/database.ts:797-808 | Enters closing and starts the last flush, once. |
| Coordinators.Coordinator.FinishClose | src/database.ts:812-819 | Closes the adapter and ends in closed once the flush has settled either way. |
| Coordinators.Coordinator.Install | src/database.ts:1063-1075 | The head of the chain reaches the adapter's conditional store. |
| Coordinators.Coordinator.Answer | src/database.ts:1076-1099 | An acknowledgement is checked for identity, generation and revision and believed, or the failure degrades the database. |
| Coordinators.Coordinator.Settle | src/database.ts:1101-1106 | Settling counts down and forgets the revision only if it is still this task's. |
| Coordinators.Drive | src/database.ts:1044-1110 | Any schedule on the objects runs as the state machine says and keeps its invariant. |
| Restart.RunShaped | src/database.ts:937-987 | Every committed and working collection stays under the schema it was opened with. |
| Restart.RestartRecovers | src/database.ts:629-655 | Opening what any run left in storage gives back the database as committed at the stored revision, and that is no older than any caller was told, as long as every accepted acknowledgement was true. |
| Restart.CommittedReopens | src/database.ts:629-655 | Any snapshot that was committed in a run opens as the database it was committed from. |
| Restart.RestartAnswersAlike | src/database.ts:629-655 | And the reopened database answers every query as it did. |
| SnapshotFiles.ReadableExactly | src/node/json-file-adapter.ts:358-416 | A file is read back exactly when it is within the byte limit, holds at most a million values nested at most 128 deep, and is an envelope of the right shape; only the first is tested before it is written. |
| Oversizing.EnvelopeExactly | src/storage.ts:86-161 | A snapshot has the shape of an envelope exactly when its identity has 1 to 256 units, its generation and revision are counts, and its catalog has a well-formed entry for each collection, of objects only. |
| SnapshotFiles.TooManyValues | src/node/json-duplicates.ts:41-45 | A collection of a million values or more cannot be read back, whatever the limit in bytes. |
| Serializing.SerializedAccepted | src/node/json-duplicates.ts:7-113 | What `JSON.stringify` writes is accepted exactly when the value is within the scanner's limits on values and nesting. |
| Serializing.Written | src/node/json-file-adapter.ts:483-488 | The text of any value, escapes included, is in the JSON grammar, as the tree of that value. |
| Serializing.WrittenShortest | src/node/json-file-adapter.ts:483-488 | Every character is written in the shortest way the grammar has, and as it is where possible, but for unpaired surrogates, which are escaped. |
| Serializing.StringifyInjective | src/node/json-file-adapter.ts:483-488 | No two values are written alike, so a file determines its snapshot. |
| Disks.CrashShows | src/node/json-file-adapter.ts:490-512 | After a crash a reader finds one of the states the directory could have been in, where the files found were synced. |
| Disks.NamesAfter | src/node/json-file-adapter.ts:490-529 | A rename moves the file to its new name, an unlink takes the name away, and no other name is affected. |
| Disks.StagedRename | src/node/json-file-adapter.ts:503-504 | Renaming a synced temporary file puts it under its name, and the state before stays possible until the directory is synced. |
| Disks.Disk.SyncDirectory | src/node/json-file-adapter.ts:531-546 | A directory sync that the platform does not support succeeds and syncs nothing; any other either fails or makes the directory's changes durable. |
| FileAdapters.InstallBytes | src/node/json-file-adapter.ts:490-512 | It succeeds exactly when none of its five steps fails; at every moment a crash shows what it could have shown before, or the new snapshot complete under its name; the new one is found in the end exactly when the rename took place. |
| FileAdapters.KeepBackup | src/node/json-file-adapter.ts:476-481 | The backup step changes only what is found as backup, and only to the current primary, exactly when its rename took place. |
| FileAdapters.FileAdapter.Check | src/node/json-file-adapter.ts:178-215 | The checks refuse in the source's order, and pass exactly when the read works, the file there can be read back, and the snapshot is the next generation of the same database over the file that this adapter last knew, within the byte limit. |
| FileAdapters.RefusesExactly | src/node/json-file-adapter.ts:178-215 | Which refusal a store meets, and in what order, from what the adapter remembers, what the primary holds and whether it can be read. |
| FileAdapters.FileAdapter.Store | src/node/json-file-adapter.ts:174-263 | What the checks refuse changes nothing; an admitted store is acknowledged exactly when no step of it fails, the faults decide what is found afterwards, crashes during it show old, backed up or new, and what is remembered changes only with an acknowledgement. |
| FileAdapters.SettledExactly | src/node/json-file-adapter.ts:531-546 | An acknowledged snapshot is what every crash shows exactly when the last directory sync of its store was real. |
| FileAdapters.FileAdapter.LoadWithRecovery | src/node/json-file-adapter.ts:435-474 | The decision table, with failing reads, files larger than may be read and a failing installation: the primary; else nothing, the backup, or a refusal; and what the directory then shows. |
| FileAdapters.FileAdapter.Load | src/node/json-file-adapter.ts:152-172 | Loading fails if the clean-up does; otherwise it answers and leaves the directory by that table, and remembers generation and identity. |
| FileAdapters.RecoversExactly | src/node/json-file-adapter.ts:435-474 | What an opening answers, from what the two files hold, which reads fail, and whether recovery is permitted and succeeds. |
| FileAdapters.OpenedAdmitsNext | src/node/json-file-adapter.ts:152-215 | Once opened, the adapter admits exactly the next snapshot of the database it found, or the first of any; after a failed opening nothing. |
| FileAdapters.RemoveStaleTemps | src/node/json-file-adapter.ts:514-529 | Removing leftovers succeeds exactly when listing and every unlink do, then leaves no temporary file, and changes nothing a crash could show under either name. |
| FileAdapters.PrimaryOldOrNew | src/node/json-file-adapter.ts:174-263 | Where every crash showed one primary before a store, every crash during it shows that complete snapshot or the complete new one. |
| FileAdapters.StoreSteady | src/node/json-file-adapter.ts:174-263 | Through every step of a store the primary is a whole snapshot and any backup is it or its predecessor. |
| CrashSafety.Live | src/node/json-file-adapter.ts:152-263 | Any sequence of openings, stores and losses of power, with any failures of single steps, is a run: one entry for each episode with what it answered, following one another, and every state of the disk in it. |
| CrashSafety.RunSteady | src/node/json-file-adapter.ts:152-263 | In every state of every run, any crash leaves the primary a whole snapshot (or none) and any backup the same snapshot or its predecessor; and what holds of every snapshot at first and of every one given to a store holds of every one found. |
| CrashSafety.RunAnswers | src/node/json-file-adapter.ts:435-474 | Every opening in a run answers with the primary, if the clean-up works and the primary can be used; a refusal means that reading it failed or that it is larger than may be read, never that power was lost. |
| CrashSafety.RunDurable | src/node/json-file-adapter.ts:174-263 | In such a run an acknowledged snapshot whose directory sync was real, or a later one, survives a crash at every later moment until an opening rolls back. |
| CrashSafety.RunFindsAcked | src/node/json-file-adapter.ts:152-263 | And every later opening that succeeds, until one rolls back, answers with that snapshot or a later one. |
| CrashSafety.RunReadable | src/node/json-file-adapter.ts:435-474 | Where every snapshot given to a store can be read back under the smallest limit in use, an opening refuses or rolls back only after a read failed, and one in which nothing fails answers with the primary. |
| CrashSafety.RunFindsForCertain | src/node/json-file-adapter.ts:152-263 | There, what was acknowledged with a real directory sync is found by every later opening in which nothing fails, whatever power was lost, unless reading the primary failed meanwhile. |
| CrashSafety.RollsBackExactly | src/node/json-file-adapter.ts:435-474 | Opening a healthy directory changes which snapshot is found exactly when recovery is permitted, the clean-up works, reading the primary fails or it is larger than may be read, the backup can be used and differs, and its installation reaches the rename; the intact primary is then lost to one a generation older. |
| CrashSafety.AckSurvivesExactly | src/node/json-file-adapter.ts:531-546 | An acknowledged snapshot survives any crash exactly when its last directory sync was real; otherwise one crash brings back the snapshot before it. |
| CrashSafety.SkippedSyncLoses | src/node/json-file-adapter.ts:531-546 | A run in which the directory sync is unsupported: the store is acknowledged, power is lost, and the database is found empty. |
| CrashSafety.Lifetime | src/node/json-file-adapter.ts:152-263 | The whole life of a file from the empty directory on, with all of this at once, and openings certain where all that is stored can be read back. |
| CrashSafety.FailedReadRollsBack | src/node/json-file-adapter.ts:435-474 | A run in which two stores are acknowledged with every sync real, and an opening whose first read fails answers with the first of them and puts it back in place. |
| CrashSafety.OversizedIsLost | src/node/json-file-adapter.ts:206-214 | A run in which nothing fails and power is never lost: a snapshot within the byte limit that cannot be read back is stored and acknowledged, the next store is refused, and the next opening is refused or rolls back. |
| CrashSafety.NothingStoredOver | src/node/json-file-adapter.ts:195-204 | Over a primary that cannot be read back no store is ever admitted, and none changes anything. |
| Oversizing.AcknowledgedAndLost | src/node/json-duplicates.ts:41-45 | That run with a concrete snapshot under the default limits. |
| Oversizing.SecondWritableOnly | src/node/json-duplicates.ts:41-45 | Eleven documents, each within every limit on a document, make a file within the default limit in bytes that may be written and cannot be read. |
| EndToEnd.LiveAll | src/database.ts:1044-1110 | Any schedule of callers and coordinator with the file adapter behind it is a life in the sense of the next rows. |
| EndToEnd.StepKeeps | src/database.ts:1061-1106 | Every move, and every state of the disk during a store, keeps the coordinator's idea of storage true of the file, and whatever a crash leaves committed and no older than what is known to be stored. |
| EndToEnd.DurableComesBack | src/database.ts:718-827 | In any life, wherever power is lost, an opening that succeeds without rolling back gives a database committed in that life, no older than any revision a call resolved for unless the last acknowledged store's directory sync was skipped; and the next life can begin there. |
| EndToEnd.AnswersComeBack | src/database.ts:629-655 | And that database answers every query as the committed one did. |
| Scanners.AcceptedIsJson | src/node/json-duplicates.ts:7-113 | Whatever is accepted is a JSON text, read whole, with no repeated decoded name, within depth and value limits. |
| Scanners.JsonIsAccepted | src/node/json-duplicates.ts:7-113 | Every such text is accepted, and read as the document it is. |
| Scanners.AcceptsExactly | src/node/json-duplicates.ts:7-113 | A text is accepted if and only if it is such a text. |
| Scanners.RepeatsRefused | src/node/json-duplicates.ts:60-65 | A JSON text in which some object has two spellings of one name is refused, and for that reason unless it is over a limit. |
| Scanners.ValueRefused | src/node/json-duplicates.ts:41-108 | Within the limits, a value in which some object repeats a name is refused as a duplicate. |
| Spelling.DecodesAsSpelled | src/node/json-duplicates.ts:22 | A character or escape that the grammar allows is decoded to the one code unit it spells: the eight short escapes by the table of RFC 8259, section 7, four digits in either case by their value. |
| Spelling.EverySpelling | src/node/json-duplicates.ts:29-32 | Every code unit is spelled by its four hexadecimal digits, each in either case, and all of those spellings are decoded to it. |
| Spelling.Alphabet | src/node/json-duplicates.ts:3-40 | The characters and words the scanner knows are those of RFC 8259, by their numbers. |
| Spelling.DistinctMeans | src/node/json-duplicates.ts:60-65 | The decoded names of all objects are distinct exactly when no object has two spellings of one name. |
| Scanners.OneReading | src/node/json-duplicates.ts:7-113 | A text is the rendering of at most one tree, whatever its size: the grammar is unambiguous. |
| Scanners.ValueSound | src/node/json-duplicates.ts:41-108 | A value read is a grammar tree whose rendering is the text passed over, counted and nested as the limits count. |
| Scanners.ValueComplete | src/node/json-duplicates.ts:41-108 | A rendered tree within what is left of the limits is read as that tree, wherever it stands. |
| Scanners.NumberComplete | src/node/json-duplicates.ts:102-106 | The longest match of the number pattern at a numeral that ends there is that numeral. |
| Scanners.PiecesComplete | src/node/json-duplicates.ts:16-40 | Every well-formed string body is read to its closing quote, piece by piece. |
| Scanners.Scanner.ParseString | src/node/json-duplicates.ts:16-40 | The loop over the characters stops where the literal ends and returns its decoding, or fails where there is none. |
| Scanners.Scanner.ParseValue | src/node/json-duplicates.ts:41-108 | The recursive method over the shared index and counter does what reading defines, failure by failure. |
| Scanners.Scanner.ParseObject | src/node/json-duplicates.ts:49-75 | The member loop with its set of names. |
| Scanners.Scanner.ParseArray | src/node/json-duplicates.ts:76-91 | The element loop. |
| Scanners.AssertNoDuplicateJsonKeys | src/node/json-duplicates.ts:7-113 | The whole check returns normally exactly on the JSON texts within the limits in which no object repeats a decoded name. |
| Sizes.QuoteAtLeast | src/json.ts:129-140 | A quoted string is never shorter than its UTF-8 bytes and two quotes, surrogates included. |
| Sizes.Utf8LengthCounts | src/json.ts:129-140 | The length charged for a text is the number of bytes of its UTF-8 encoding. |
| Cloning.EstimateBelow | src/json.ts:103-220 | The running byte estimate never exceeds the serialized size. |
| Cloning.VisitSound | src/json.ts:105-217 | A finished walk has counted exactly the values, depth and bytes of the tree it returns, which is the unfolding of the graph. |
| Cloning.VisitFails | src/json.ts:105-217 | A value that unfolds is refused only for its own number of values, depth, strings or size. |
| Cloning.FailuresAreReal | src/json.ts:80-229 | Invalid limits and an input that is not an object are reported exactly when so; any other complaint about the input is of something that a path from it leads to. |
| Cloning.ClonesExactly | src/json.ts:80-229 | The clone is returned exactly when every limit is positive and at most its ceiling and the graph has a tree unfolding that is an object within all four limits, the last measured on the serialized text, and it is that tree. |
| Cloning.SizeDecidedExactly | src/json.ts:219-227 | Within the other limits a document is refused for size exactly when its serialized text is too long. |
| Cloning.CyclesAreReal | src/json.ts:144-145 | When a cycle is reported, some path from the document meets an object twice, whatever else is wrong with the document; shared objects alone are never reported. |
| Cloning.ReturnsMeansAcyclic | src/json.ts:144-145 | If the walk returns normally no path from the document meets an object twice. |
| Cloning.Cloner.Visit | src/json.ts:105-217 | The recursive method over counters and the ancestor set does what the walk defines. |
| Cloning.CloneObject | src/json.ts:80-229 | The whole operation, limits checked first, with its exact condition. |

## Left out

- Numbers that are not integers: JSON numbers are mathematical integers here, so IEEE rounding, exponents in rendered numbers and -0 do not arise.
- Validators, key generators and the JSON clone inside an operation: a schema carries two deterministic predicates for them, and a generated key is an input of the operation.
- Age limits, test failpoints, transaction identities and nested or asynchronous callbacks: no bearing on what is proved.
- `Transaction` after it has finished: calls on a finished transaction throw in the source and are steps without effect in the model.
- The guard at the start of `transaction()` that turns durable work away while degraded: the model has the end of `transaction()`, where durability is decided.
- `Collection` reads outside transactions, `explain`, `count`, and the builder functions for queries: easy members over the same state.
- Reload.CreateStoredCollection: keeps the growing maps and index sets as values where the source edits fresh sets in place, so the building loop's own objects are not modelled.
- Queries.Query: works on the value a committed collection represents, not on its overlay maps and bucket objects; the transactional query `Transactions.Transaction.Find` does work on those.
- Sorting: the model sorts by insertion, and `Ordering.AscendingUnique` shows that any sort that arranges by the comparator gives the same list.
- Listeners, overflow and error hooks: opaque and not re-entrant, except that listeners may commit while they are called; the overflow hook does not itself commit.
- Dropping the documents from events when they are not asked for: the feed always carries them.
- Torn and foreign files beyond being broken: a file under either name is the whole file of a snapshot, with its checksum, or it is broken.
- Reopening with another schema: the order of collections and the catalog in a file are the same throughout a run.
- Coordinators.MemoryAdapter.Store: does not model the reference adapter's own test of the shape of what it stores; the test itself is `SnapshotFiles.IsEnvelope`.
- An adapter that writes after it has answered, or after it was closed: a store reaches storage before its answer and before the adapter is closed, or not at all, where a file store in flight goes on after `close()`.
- The seed and schema names of the constructor: `Opening.Open` reports that there is no database, not which collection failed first.
- Lock acquisition and stale locks: one owner holds the lock throughout.
- Symbolic links, hard links, file modes, byte-order marks, UTF-8 validity and real file-system calls: the disk has two names, temporary files, contents and what is synced.
- Rename errors that nevertheless rename only in part: renames are atomic and directory changes reach the disk in order.
- JavaScript objects beyond references, holes, foreign prototypes and non-JSON values in `Clone`: accessors, symbols, property flags and freezing.
- Paths reported with validation errors, and error classes beyond their kind.
- Promises and microtasks: modelled as explicit steps of starting, storing, answering, settling and delivering.
