# Verification of the media transfer, search and ingest cores

A Dafny 4.11 project that models the server's hardest state: moving media into object storage over
concurrent byte ranges, two lease-based work queues, the search index they feed, cursor pagination and
query compilation, and the bookkeeping of a submitted batch. `dafny verify dfyconfig.toml` checks all of it.

## What is modelled

**Media transfer.** `RangeSpecs` cuts a length into numbered ranges, `ByteReader` re-chunks a network body
and downloads one range, `PartLedger` keeps the parts that wait for their turn to be hashed. `RangeEngine`
is the `select!` loop as a transition system in which any request in flight may finish next;
`RangeTransfer` is the loop itself, a class with mutable collections proved to step exactly as that system
does. `SequentialTransfer` is the second path, `MediaTransfer` the choice between the paths. SHA-256 is
represented by the bytes fed to it, an ETag by the bytes the storage holds for the part. A network body is
a sequence of frames, each of them bytes or a failure. A *faithful* origin answers as RFC 9110 asks (an
announced length is the length of the body, section 8.6; a partial response carries the requested range,
sections 14.1.2 and 15.3.7); what happens with any other origin is stated as well, and an origin that announces no
ranges need not answer them. `reliable` says that no
request fails; without it any request may fail or time out at any moment.

**Transfer queue.** `TransferQueue` has every statement on `media.transfer_task` as a function of the rows
and as a method of the table, and what every run of them keeps. `TransferLease` adds any number of workers,
each remembering which task it claimed: within the lease a task has one holder and a completed task never
changes. Outside it the marks are not fenced, and the exact condition is proved for every run: completed tasks
stay as they are if and only if no final mark, of success or of failure, meets a completed task, and for that
an attempt must have outlived the stale timeout or been released. Concrete runs show both marks doing it. The
key of an object is a function of its task and its extension (server/src/storage.rs, lines 101 to 150), so a
slow worker that succeeds conflicts, marks the completed task failed, and leaves it in a state in which no
attempt with that extension can complete it again. `TransferWorker` is the worker loop as methods over the
table, with everybody else at work between its statements, proved to be a run of that system. What a round meets,
which statements reach the database and what became of the upload, is its `Weather`; how the round ends follows
from it.

**Search queue and index.** `SearchQueue` has the fenced statements; the body of `search.enqueue_targets` is
server/migrations/20260426000090_search_outbox.sql, lines 6 to 73. `SearchFencing` proves the fence for any
number of workers. `SearchIndex` is the index writer as a log of operations, `SearchFreshness` the workers
against a changing database as a transition system, `SearchWorker` the worker loop as methods over the queue
and the two writers, proved to be a run of it; again the `Weather` of a round decides how it ends. The result is an exact condition: completed rows promise a fresh
index document if and only if there is one worker, which is the default. With two, a worker can write what it
fetched before the other one's write, because the fetch comes before the writer lock
(server/src/search/mod.rs, lines 263 to 265); a run shows it.

**Listing and search.** `Keyset` follows cursors over tables that change between pages: rows come, go and
move, since a listing may be sorted by the time of the last update. An account of what moves over a cursor says
how often each row is returned, and from it follows what holds for rows that stay in place, that only rise, and
that may do anything. The startup backfill walks a changing table the same way. `OffsetPaging` is the offset
cursor of search, with the same account for ranks, and the exact condition under which a client sees every hit
once. `QueryText` normalises what a user typed and finds token bounds in UTF-8 bytes (section 3 of RFC 3629);
`TweetQuery` compiles a request into a query tree.

**Submitted batches.** A batch is followed from its input to its reports: `SubmitPrepare` is the
preparation, `SubmitExecute` the two writes that merge rows, `SubmitWrites` all the others and the queueing of
transfers, `SubmitTally` how their reports add up, `SubmitAnswers` what every object is told in the end, by what
each statement has answered for its row, `SubmitBatch` the whole, with the branch for strings that cannot be
preloaded; `SubmitResult` says how an object ends and counts the reports. `StringDict` is the dictionary table with its cache under any interleaving, `StringDictCache` the
cache as its callers see it, with others at work between any two accesses, `DictPreload` the collectors and the
payload builders they have to cover. The cache is refreshed once, while it is loaded and before anybody shares
it (server/src/string_dict.rs, lines 77 to 81; server/src/app.rs, line 19); without a refresh what is cached
stays cached, so the lookups after a preload are hits whatever other callers do. `shared` says that there are
other callers; what a call does alone is stated for the case that there are none.

`Prelude` and `ClaimOrder` hold shared vocabulary.

Assumed of the environment: each SQL statement or transaction is one atomic step; the change of a record and
the refresh of its queue row are one transaction (docs/architecture.md, line 136); claims of rows that are
not stale are stamped later than earlier claims of the same row (for stale rows this is proved).

docs/architecture.md, line 182, lists four task statuses; the migrations and the code have a fifth, canceled,
and the model follows the code.

Every lemma carries `{:induction false}`, so that each proof is the one that is written down.

## Model

| member | source | states |
|---|---|---|
| RangeSpecs.BuildRangeSpecs | server/src/transfer/range.rs:46-70 | for every 64-bit start, length and positive chunk size, without overflow: fails exactly when first buffer and ranges need more than 10000 parts, otherwise yields the tiling ranges |
| RangeSpecs.SpecsTile | server/src/transfer/range.rs:46-70 | the ranges are consecutive, non-empty, inside the bounds, numbered from the given part, of chunk size except the last, and exactly as many as needed |
| RangeSpecs.SpecsCount | server/src/transfer/range.rs:46-70 | the number of ranges is the rounded-up quotient of the remaining length |
| RangeSpecs.SpecsSelectSplit | server/src/transfer/range.rs:46-70 | range number i selects the same bytes as piece number i of a sequential cut of the body |
| Prelude.SplitFacts | server/src/transfer/download.rs:169-190 | a sequential cut loses no byte, makes no empty piece, and only its last piece is short |
| ByteReader.ResponseByteReader.ReadSome | server/src/transfer/download.rs:132-166 | what is handed out, followed by what remains, is what was held; never empty, never more than asked; end and failure are told apart |
| ByteReader.ResponseByteReader.ReadNextBuffer | server/src/transfer/download.rs:169-190 | whatever frames the network delivers, empty ones included, a buffer is the next full chunk, or the whole rest at the end of an intact body; a broken body fails |
| ByteReader.DownloadRangePart | server/src/transfer/download.rs:51-108 | succeeds exactly for a response of status 206 that announces no other length and holds at least the requested number of readable bytes, and returns the first so many of these; which error otherwise |
| PartLedger.PartTable.InsertPendingHash | server/src/transfer/range.rs:38-43 | a new part waits with its bytes and an unfinished upload |
| PartLedger.PartTable.HashReadyRangeParts | server/src/transfer/range.rs:72-96 | hashes the longest run of waiting parts in part order, frees their bytes, drops those already uploaded, counts their length, and fails only on 64-bit overflow |
| PartLedger.PartTable.MarkRangePartUploaded | server/src/transfer/range.rs:98-112 | an uploaded part is dropped if it has been hashed and flagged otherwise; nothing else changes |
| RangeEngine.StartInv | server/src/transfer/upload.rs:324-357 | the ledger invariant holds when the loop starts with the first buffer as part 1 |
| RangeEngine.IssueInv | server/src/transfer/upload.rs:360-367 | a refill hands out a part that is nowhere yet, within the memory bound, and keeps the invariant |
| RangeEngine.DownloadedInv | server/src/transfer/upload.rs:378-397 | a finished download keeps the invariant: strict hash order, one place per part, bounded memory, one event less to come |
| RangeEngine.UploadedInv | server/src/transfer/upload.rs:398-403 | a finished upload keeps the invariant; no part is recorded twice |
| RangeEngine.NeverStuck | server/src/transfer/upload.rs:359-405 | after a refill, nothing is in flight exactly when all four collections are empty |
| RangeEngine.StepInv | server/src/transfer/upload.rs:377-404 | whichever completion comes next keeps the invariant and brings the end one event nearer |
| RangeEngine.EveryRunIsSafeAndEnds | server/src/transfer/upload.rs:322-405 | for every order of completions: the invariant at every loop head, with at most `downloadParallelism` downloads in flight and at most `maxInFlightParts` parts in memory, always something to do before the end, and the end after exactly 2k + 1 events for k ranges with the object whole |
| RangeEngine.SortSorts | server/src/storage.rs:341-357 | sorting parts with distinct numbers gives the same parts in ascending order |
| RangeEngine.SortedIsNumbered | server/src/storage.rs:341-357 | parts numbered 1 to n in any order sort to 1, 2, ..., n, each with its own content |
| RangeEngine.FinishedState | server/src/transfer/upload.rs:369-412 | when everything is drained the parts in order are the whole body, and length and hash are those of it |
| RangeTransfer.TransferLoop.RefillDownloads | server/src/transfer/upload.rs:360-367 | hands out the next ranges in order until none is left or one of the two limits is reached: no more downloads than `downloadParallelism`, no more parts in memory than the buffer holds; and so is the refill of the transition system |
| RangeEngine.RefillMeans | server/src/transfer/upload.rs:360-367 | after a refill of the transition system the queue is empty or one of the two limits is reached, and neither is exceeded |
| RangeTransfer.TransferLoop.OnDownloaded | server/src/transfer/upload.rs:378-397 | the branch for a finished download is the step of the transition system, or a 64-bit overflow |
| RangeTransfer.TransferLoop.OnUploaded | server/src/transfer/upload.rs:398-403 | the branch for a finished upload is the step of the transition system |
| RangeTransfer.TransferLoop.IsDrained | server/src/transfer/upload.rs:369-375 | the test that ends the loop is that all four collections are empty |
| RangeTransfer.RunLoop | server/src/transfer/upload.rs:359-405 | the loop ends drained with its invariant, or with a failed request; without failures it ends drained |
| RangeTransfer.CompleteMultipartWithHash | server/src/transfer/upload.rs:453-479 | the completed object is the parts in sorted order; a length beyond the signed 64-bit range is refused |
| RangeTransfer.UploadMultipartRangeInner | server/src/transfer/upload.rs:311-427 | success means every range was delivered, the parts are the first buffer and the ranges in order, and length and hash are of those bytes and equal the announced length; the part limit fires exactly when it must, the final length check only for an over-long first buffer |
| SequentialTransfer.SequentialUpload.EnqueueSequentialPart | server/src/transfer/upload.rs:235-264 | the buffer becomes the next part, hashed and counted, and starts to upload; fails exactly on the part limit or on overflow |
| SequentialTransfer.SequentialUpload.WaitForCapacity | server/src/transfer/upload.rs:266-278 | afterwards fewer uploads than the limit are in flight and no part is lost |
| SequentialTransfer.EnqueueRest | server/src/transfer/upload.rs:198-214 | the rest of the body is enqueued exactly as its sequential cut, and only from an intact body |
| SequentialTransfer.UploadMultipartSequentialInner | server/src/transfer/upload.rs:153-232 | success means the stored parts are the given buffers and the cut of the rest, with length and hash of those; without failures it succeeds exactly within the part and length limits |
| MediaTransfer.FromSection | server/src/transfer/common.rs:20-45 | the options exist exactly unless the chunk size leaves the machine width or the deadline the clock, and which of the two is said; chunk size in MiB, each limit at least one, the deadline so many seconds ahead and none without a timeout; a validated and enabled section keeps chunks at 5 MiB or more |
| MediaTransfer.StoredAsIsWhole | server/src/transfer/upload.rs:57-107 | the object a body is stored as is the whole body; several parts only when at least two are needed, all but the last of exactly the chunk size |
| MediaTransfer.ParallelMakesSequentialParts | server/src/transfer/upload.rs:311-427 | from a faithful origin the parallel path makes the same parts as the sequential one, and both meet the part limit for the same bodies |
| MediaTransfer.StoreByRanges | server/src/transfer/upload.rs:71-86 | the parallel branch stores the whole body of a faithful origin |
| MediaTransfer.StoreSequentially | server/src/transfer/upload.rs:88-107 | the sequential branch does so too |
| MediaTransfer.TransferSourceToStorage | server/src/transfer/upload.rs:36-108 | every branch: what is stored has its own length and hash, from a faithful origin it is the whole body, and without failures it is refused only for too many parts or too great a length; what the origin answers to requests for ranges matters only if it announces ranges and a length, more than one download is allowed and the body is longer than a chunk |
| ClaimOrder.TakeFirst | server/src/search/queue.rs:143-158 | a claim takes candidates none of which is preceded by one left behind, as many as the limit allows |
| TransferQueue.TransferTable.EnqueueTask | server/src/transfer/queue.rs:78-103 | a source is queued once, as a pending row with no attempt; an existing task is left alone |
| TransferQueue.TransferTable.ExpireStaleTasks | server/src/transfer/queue.rs:210-235 | exactly the stale tasks without attempts left become failed, with their last error or that of a timeout; every other stale task can be claimed again; the number returned is that of the tasks that stopped running |
| TransferQueue.TransferTable.ClaimNextTask | server/src/transfer/queue.rs:237-286 | claims the first of the rows that are not locked and are pending, or stale with attempts left: a pending one before a stale one, an older one before a newer one, then by id; none exactly if there is none; the row is stamped and its attempt counted |
| TransferQueue.TransferTable.PersistCompletedTask | server/src/transfer/queue.rs:155-208 | object and completed task together, or neither when the object or its key already exists |
| TransferQueue.TransferTable.MarkTaskFailed | server/src/transfer/queue.rs:288-319 | whoever holds the task, it is not running afterwards: pending with attempts left and failed without, with the error and without a claim; no other task changes |
| TransferQueue.TransferTable.TransitionLockedTask | server/src/internal_api/v2/transfer.rs:244-295 | retry of a failed or canceled task, cancel of a pending one, release of a running one, and no other; with their effect on every field; a retried or released task can be claimed at once, a canceled one never, whatever the cutoff and the bound; no other task changes |
| TransferQueue.ApplyKeepsRow | server/src/transfer/queue.rs:188-319 | each operation keeps the invariant of each row |
| TransferQueue.EveryRunKeepsRows | server/src/transfer/queue.rs:188-319 | over every run of inserts, claims, marks, expiry, retry, cancel and release: claim fields exactly while processing, `completed_at` exactly when final, completed implies an object, attempts at most the maximum plus the resets of that task, object keys unique |
| TransferQueue.EmptyTableIsOk | server/src/internal_api/v2/transfer.rs:169-242 | so every run from an empty table |
| TransferQueue.AttemptBoundIsReached | server/src/internal_api/v2/transfer.rs:169-192 | that bound is attained for every maximum and every number of resets |
| TransferLease.StepKeepsLease | server/src/transfer/worker.rs:92-156 | no action within the lease breaks exclusive holding, object ownership or a completed task |
| TransferLease.ClaimKeepsLease | server/src/transfer/queue.rs:237-286 | a task that can be claimed has no holder left |
| TransferLease.ExpireKeepsLease | server/src/transfer/queue.rs:210-235 | expiry takes no task from a live holder |
| TransferLease.PersistKeepsLease | server/src/transfer/queue.rs:155-208 | the completing worker is the only holder and stores the only object of its task |
| TransferLease.RunKeepsCompleted | server/src/transfer/worker.rs:92-156 | a completed task stays exactly as it is |
| TransferLease.LeaseSafety | server/src/transfer/worker.rs:92-156 | with every attempt shorter than the stale timeout and no release: for any number of workers at most one holds a task, completed tasks never change, a task gets at most one object |
| TransferLease.CompletedKeptIff | server/src/transfer/queue.rs:155-319 | any action at any moment leaves all completed tasks as they are if and only if it is no final mark of a worker whose task is completed already |
| TransferLease.RunKeepsCompletedIff | server/src/transfer/worker.rs:80-156 | over every run, with no hypothesis on time or admins: completed tasks stay as they are throughout if and only if no final mark meets a completed task |
| TransferLease.MarkNeedsOutlivedAttempt | server/src/transfer/worker.rs:80-156 | for a final mark to meet a completed task, an attempt at that task must have outlived the stale timeout before, or an admin released it |
| TransferLease.OneObjectPerKey | server/src/storage.rs:101-150 | once an object is stored for a task under a key, no attempt at that task stores another under it, ever |
| TransferLease.SlowSuccessReopens | server/src/transfer/worker.rs:111-156 | a slow worker that succeeds after another one did conflicts with its object; its failure mark undoes the completion, and no later attempt with that extension can complete the task |
| TransferLease.CompletedIsUndoneOutsideTheLease | server/src/transfer/queue.rs:155-319 | the condition is met: one run for the late failure mark, which reopens the task, and one for a late success with another extension, which leaves two objects |
| TransferWorker.TransferSystem.ProcessTask | server/src/transfer/worker.rs:140-156 | a failed transfer, or one that cannot be recorded, completes nothing; one that succeeds and can be recorded completes the task with exactly its object, unless an object has taken the id or the key; a task that is not completed is left to this worker as it was |
| TransferWorker.TransferSystem.EndFailed | server/src/transfer/worker.rs:110-127 | the last step of a failed attempt is its failure mark, after which the task is not running, or nothing if the database is out of reach |
| TransferWorker.TransferSystem.Round | server/src/transfer/worker.rs:81-137 | a round by what it meets, with any steps of others in between: it expires whenever that reaches the database; it claims a task unless all that can be claimed are locked; a claimed task ends completed by this upload if that succeeded and could be recorded, and otherwise marked failed; this worker does nothing else |
| TransferWorker.TransferSystem.RunWorkerLoop | server/src/transfer/worker.rs:80-138 | the rounds follow one another, each by what it meets; together they are a run of the transition system, so that within the lease tasks have one holder and no completed task ever changes |
| SearchQueue.IndexQueue.EnqueueTargets | server/migrations/20260426000090_search_outbox.sql:6-73 | afterwards each target is pending with no attempt, no error and no claim, keeping its place in the queue if it had one; no earlier claim on it matches; other rows stay; what was new is returned |
| SearchQueue.IndexQueue.ClaimNextTasks | server/src/search/queue.rs:134-184 | claims rows that are not locked and are pending, or stale with attempts left, up to the limit: pending ones before stale ones, older ones before newer ones, then by id; all of them if they are fewer; stamping worker and time and counting the attempt |
| SearchQueue.IndexQueue.MarkTasksCompleted | server/src/search/queue.rs:190-236 | exactly the targets whose claim still matches stop running and are completed, without error and claim, as many as the number returned; afterwards none of the claims matches |
| SearchQueue.IndexQueue.MarkTaskFailed | server/src/search/queue.rs:238-275 | takes effect exactly if the row is still processing under this name and time; then it is pending with attempts left and failed without, with the error and without a claim; otherwise nothing changes |
| SearchQueue.IndexQueue.ExpireStaleTasks | server/src/search/queue.rs:277-302 | exactly the stale targets without attempts left become failed, with their last error or that of a timeout; every other stale target can be claimed again; as many as the number returned have stopped running |
| SearchFencing.NewClaimIsLater | server/src/search/queue.rs:141-174 | a new claim is later than every earlier one of its row; for stale rows this follows from the positive stale timeout |
| SearchFencing.FenceNeverReturns | server/src/search/queue.rs:205-275 | a claim that has lost its row never matches it again |
| SearchFencing.LateMarkChangesNothing | server/src/search/queue.rs:205-275 | over every run with any number of workers, the marks of such a claim change nothing |
| SearchFencing.SupersededClaimsAreLost | server/src/search/queue.rs:134-275 | a refresh, a new claim and any effective mark each make the old claim lose its row |
| SearchFencing.EachClaimCountsOnce | server/src/search/queue.rs:205-275 | over a whole run each claim takes effect in at most one mark |
| SearchIndex.IndexWriter.IndexGroup | server/src/search/mod.rs:258-322 | the writer is left as the outcome says: committed in full, buffered up to the failure, or committed with a failed reload |
| SearchIndex.GroupIsWritten | server/src/search/mod.rs:266-284 | after the group each of its ids has exactly its record as its documents, or none |
| SearchIndex.UntouchedStays | server/src/search/mod.rs:266-284 | operations on other ids do not change the documents of an id |
| SearchIndex.PairedKeepsUnique | server/src/search/mod.rs:266-284 | a log that deletes before each add keeps at most one document per id |
| SearchFreshness.FetchKeepsInv | server/src/search/mod.rs:258-265 | what is fetched is current for every claim that still has its row |
| SearchFreshness.WriteKeepsInv | server/src/search/mod.rs:244-322 | a write, complete or failed at any point, keeps the invariant |
| SearchFreshness.MarkKeepsInv | server/src/search/worker.rs:107-183 | marking completes only rows whose documents are current |
| SearchFreshness.StepKeepsInv | server/src/search/worker.rs:81-212 | every step of one worker and of the database keeps it: refreshes at any time, batch and single indexing, lost marks, restarts |
| SearchFreshness.CompletedMeansFresh | server/src/search/worker.rs:81-212 | with one worker, in every reachable state a completed row means the committed documents are exactly the current record, nothing buffered will change that, and no id has two documents |
| SearchFreshness.SeveralWorkersInvertWrites | server/src/search/mod.rs:263-265 | with two or more workers a run ends with a completed row and an outdated document |
| SearchFreshness.FreshIffOneWorker | server/src/config/mod.rs:431-433 | for every positive number of workers: the promise holds in all runs if and only if the number is one |
| SearchWorker.SplitByKind | server/src/search/mod.rs:244-256 | the ids of the batch by kind, in the order of the claims: what is indexed is what the groups of the transition system hold |
| SearchWorker.SearchSystem.IndexIds | server/src/search/mod.rs:258-322 | reads the records of the group and writes its documents by a run of the transition system, with other changes before each step: it succeeds whenever both reach their end, and never without having read the records |
| SearchWorker.SearchSystem.ProcessTaskBatch | server/src/search/worker.rs:81-138 | a batch is indexed users first; if all goes well one mark completes it, and alone it completes all of it; otherwise it is worked through one claim at a time; if every mark reaches the database, none of the claims is left holding its row |
| SearchWorker.SearchSystem.ProcessSingleTask | server/src/search/worker.rs:152-212 | a claim is completed if its group went well, marked failed if its records could not be read, and left only if the mark is lost; the next one follows |
| SearchWorker.SearchSystem.ClaimBatch | server/src/search/worker.rs:59-70 | the claim takes as many of the free rows as fit into the batch, under this name and time; nothing changes exactly if there are none |
| SearchWorker.SearchSystem.RunWorkerLoop | server/src/search/worker.rs:53-79 | the rounds follow one another, each by what it meets: expiry, a claim of what is free, and the batch worked on to its end; against a changing database, at no moment is a completed target anything but fresh |
| Keyset.ResolveLimit | server/src/internal_api/v2/common.rs:147-149 | no limit is 50, 0 is 1, more than 100 is 100, and any other is used |
| Keyset.PaginateRows | server/src/internal_api/v2/common.rs:340-364 | the page is the first rows up to the limit; a cursor, that of the last row, exactly when more were fetched |
| Keyset.SelectFacts | server/src/internal_api/v2/tweets.rs:186-236 | an ordered and limited selection takes the first rows and leaves only later ones |
| Keyset.PageFacts | server/src/internal_api/v2/tweets.rs:186-245 | a page lists rows after the cursor in order, leaves out only rows after the cursor it returns, and returns one exactly when rows are left |
| Keyset.ListTweets | server/src/internal_api/v2/tweets.rs:158-245 | refused exactly for a cursor of another version, query, filter or sort or without a time, and the first of these is named; otherwise up to the limit of the rows after the cursor, the greater value of the sort column first and of equal ones the greater id; what is left out comes after the cursor returned, which is that of the last row and is there exactly if something is left out |
| Keyset.WalkDescends | server/src/internal_api/v2/tweets.rs:186-245 | however the table changes between pages and whatever the limits, the returned keys strictly descend by the sort column and, where that is equal, by id |
| Keyset.WalkAccount | server/src/internal_api/v2/tweets.rs:186-245 | over tables that change as they like, a row is returned once if it was to come at the start, once more each time it joins what is to come (inserted, or moved below the cursor), once less each time it leaves it (deleted, or moved above) |
| Keyset.ReturnedOnceIff | server/src/internal_api/v2/tweets.rs:186-245 | a row that is there at the start is returned exactly once if and only if it leaves as often as it joins |
| Keyset.NoRowTwice | server/src/internal_api/v2/tweets.rs:186-245 | no row is returned twice whose sort column never falls, even if it comes and goes |
| Keyset.RisingRow | server/src/internal_api/v2/tweets.rs:68-86 | a row that is there throughout and never falls, as by time of update, is returned exactly once, unless it moved above the cursor before its turn: then, and only then, not at all |
| Keyset.UnchangedRow | server/src/internal_api/v2/tweets.rs:186-245 | a row that is there throughout with the same value in its sort column, as by time of publication, is returned exactly once, whatever happens to the others |
| Keyset.MovedRowIsMissed | server/src/internal_api/v2/tweets.rs:68-86 | an instance: a tweet updated between two pages is never returned |
| Keyset.FixedTableEnds | server/src/internal_api/v2/tweets.rs:186-245 | on a table that does not change the walk ends with a null cursor |
| Keyset.FixedTableListsAll | server/src/internal_api/v2/tweets.rs:186-245 | there it returns every row exactly once, in descending order, and nothing else |
| Keyset.EnqueueExistingTargets | server/src/search/mod.rs:402-439 | over a table that may change between batches the backfill ends, with the ids in ascending order and none twice, counts them, enqueues nothing that never existed and everything that existed throughout |
| OffsetPaging.ExecuteTweetQuery | server/src/internal_api/v2/tweets.rs:478-562 | refused exactly for a cursor of another search; otherwise exactly the hits at these ranks whose tweet is in the database, in rank order, and the next offset exactly when there are more hits, without overflow |
| OffsetPaging.WalkListsAll | server/src/internal_api/v2/tweets.rs:517-646 | on results that do not change, following offsets with any limits returns every hit that is still in the database once, in rank order |
| OffsetPaging.WalkListsKnown | server/src/internal_api/v2/tweets.rs:517-646 | that is: the list is exactly the hits of the whole results whose tweet is in the database, each at its rank |
| OffsetPaging.WalkAccount | server/src/internal_api/v2/tweets.rs:517-562 | on results that change as they like, a hit is returned as often as it is in the last results, once more for each offset it has fallen behind between two pages, once less for each it has risen ahead of |
| OffsetPaging.OffsetsKeepIff | server/src/internal_api/v2/tweets.rs:517-562 | a walk from the start returns every hit of the last results exactly once if and only if each hit falls behind as many offsets as it rises ahead of |
| OffsetPaging.OneChangeIff | server/src/internal_api/v2/tweets.rs:517-562 | results that change once, at offset s: every hit of the new results comes exactly once if and only if the first s hits before and after are the same ones, in whatever order; otherwise by how much each is off |
| OffsetPaging.OffsetsDrift | server/src/internal_api/v2/tweets.rs:517-562 | two instances that miss this condition: one hit repeated, one left out |
| QueryText.NormalizedQuery | server/src/search/mod.rs:981-1013 | the character loop computes the normal form the lemmas speak about |
| QueryText.NormalizedIsNormal | server/src/search/mod.rs:981-1013 | the result has at most 256 characters and is words of alphanumerics and underscores with single spaces between, none of them AND, OR or NOT |
| QueryText.BalancingHasNoEffect | server/src/search/mod.rs:988-990 | the words are those of the first 256 characters after trimming; balancing quotes never changes them |
| QueryText.SplitJoin | server/src/search/mod.rs:1001-1010 | splitting undoes joining |
| QueryText.NormalizingTwiceIsOnce | server/src/search/mod.rs:981-1013 | normalising is idempotent |
| QueryText.TokenTextBounds | server/src/search/mod.rs:604-614 | the byte offsets are those of the smallest slice on character boundaries that holds every alphanumeric; none exactly if there is none |
| QueryText.ByteSliceAligned | server/src/search/mod.rs:1022-1023 | slicing at the byte offsets of two character boundaries yields the characters between them |
| QueryText.TightestIsCore | server/src/search/mod.rs:604-614 | that slice is the text with everything not alphanumeric taken off both ends |
| QueryText.NormalizedPrefixQuery | server/src/search/mod.rs:1015-1029 | the prefix is the lower-cased core of the first 64 characters, if something is left |
| QueryText.TrimAtFacts | server/src/search/mod.rs:1016 | of the text exactly the leading at signs are taken off |
| TweetQuery.SortDedup | server/src/search/mod.rs:833-835 | the ids are the given ones in strictly ascending order |
| TweetQuery.PushI64Filter | server/src/search/mod.rs:828-854 | adds nothing for no ids, and otherwise one required clause that matches exactly the documents with one of them |
| TweetQuery.TextParts | server/src/search/mod.rs:637-678 | the text clause matches exactly the documents the text accepts, with its three weights, is absent when nothing was typed, and nothing can match when nothing is left of what was typed |
| TweetQuery.CollapseMatches | server/src/search/mod.rs:700-708 | no part, one part or several: the query matches exactly when all parts do |
| TweetQuery.BuildTweetQuery | server/src/search/mod.rs:632-710 | for every document the compiled tree matches if and only if the text and every non-empty filter accept it; a hit in the body weighs 3, one by the id of the tweet 100, one by that of its author 50; compiling fails only when the parser refuses the normalised text |
| SubmitPrepare.CollectLastValidI64Indices | server/src/tweet_submit/validate.rs:3-15 | every valid id is mapped to the index of its last occurrence, and nothing else is |
| SubmitPrepare.ParsesDecimal | server/src/tweet_submit/validate.rs:24-28 | an id in decimal is read as its number exactly if that fits into 64 bits |
| SubmitPrepare.ParsesSigned | server/src/tweet_submit/validate.rs:24-28 | the same with either sign |
| SubmitPrepare.ParsesOnlyDigits | server/src/tweet_submit/validate.rs:24-28 | what is read has nothing but digits after an optional sign, and at least one |
| SubmitPrepare.LastIsUnshadowed | server/src/tweet_submit/prepare.rs:133-137 | the map test for a shadowed object is the test for a later object with the same id |
| SubmitPrepare.ExactlyOneIsUnshadowed | server/src/tweet_submit/prepare.rs:115-120 | of all objects with one id exactly one counts |
| SubmitPrepare.PickFacts | server/src/tweet_submit/prepare.rs:122-316 | a prepared list names each contributing index once, in ascending order and within bounds, and no other |
| SubmitPrepare.NoIdTwice | server/src/tweet_submit/prepare.rs:122-316 | no prepared list has two entries with the same object id |
| SubmitPrepare.NoUserTwice | server/src/tweet_submit/prepare.rs:139-145 | no user id is written twice |
| SubmitPrepare.UserCovered | server/src/tweet_submit/prepare.rs:122-170 | every valid submitted user id is written |
| SubmitPrepare.PrepareUsers | server/src/tweet_submit/prepare.rs:122-170 | one report per user in input order, and each list exactly what the users contribute |
| SubmitPrepare.PrepareMedia | server/src/tweet_submit/prepare.rs:172-208 | the same for media |
| SubmitPrepare.PrepareTweets | server/src/tweet_submit/prepare.rs:210-316 | the same for tweets and the nine lists they feed; the conversion gets the id of the place that was converted; an author is listed even when the tweet does not convert |
| SubmitPrepare.PrepareSubmitBatch | server/src/tweet_submit/prepare.rs:105-319 | all of it in one batch |
| SubmitExecute.CombineUsers | server/src/tweet_submit/execute/users.rs:21-46 | one entry per id with all its user and tweet indices in order; the date is the first known one of the submitted users, an author's only if there is no user |
| SubmitExecute.RecordAll | server/src/tweet_submit/execute/users.rs:57-59 | each listed result gets the operation once, the others stay |
| SubmitExecute.WriteCombinedUserBatch | server/src/tweet_submit/execute/users.rs:3-84 | whatever order the hash map has: one row per id is sent, with the first known date of the submitted users of that id, or that of the first author; each user and each tweet author gets exactly one operation: accepted if its row was changed, skipped if not, failed if the statement failed |
| SubmitExecute.WriteTweetPlacesBatch | server/src/tweet_submit/execute/tweets.rs:3-45 | the first version of every place is sent once, and each tweet with a place gets one operation: accepted, skipped or failed as the row of its place was changed, was not, or could not be written |
| SubmitAnswers.RefusedFinishes | server/src/tweet_submit/result.rs:47-77 | a bad id ends as failed, a shadowed object as skipped |
| SubmitWrites.WriteWithStatuses | server/src/tweet_submit/execute/users.rs:86-155 | each object on the list, and no other, is told once of its row: accepted exactly if it was inserted, failed exactly if the statement failed or gave no status for it, skipped otherwise, with the reason |
| SubmitWrites.WriteChanged | server/src/tweet_submit/execute/media.rs:3-32 | each object on the list is told once of its row: accepted exactly if it was changed, failed exactly if the statement failed, skipped otherwise |
| SubmitWrites.ReplaceRelations | server/src/tweet_submit/execute/relations.rs:39-116 | each listed tweet is told once of each of its four relations: accepted exactly if that one was replaced, failed exactly if the statement failed or gave no status, skipped otherwise |
| SubmitWrites.EnqueueTransfers | server/src/tweet_submit/execute/media.rs:71-154 | a resource that was written or was there unchanged is told once of its transfer: accepted exactly if the queue took it, failed exactly if its media object is missing or the queue failed, gave no status or does not know the record, skipped otherwise; any other is told nothing; the queue is asked exactly for those that have a source, while transfers are on |
| SubmitTally.TallyStep | server/src/tweet_submit/execute/mod.rs:88-133 | writes under names of their own add up: every report has what is due under all of them, and nothing else |
| SubmitAnswers.UserIsAnswered | server/src/tweet_submit/execute/mod.rs:88-102 | by what was submitted and what the statements answered: a user that counts is told once of its row, and once each of its profile and statistics, if it has them, by their answers or the failure of the conversion, and ends by what it was told; a refused one is told only its refusal |
| SubmitAnswers.TweetIsAnswered | server/src/tweet_submit/execute/mod.rs:88-133 | a tweet that takes part is told once of its author, of a place that matters, of itself, and once converted of each part and relation, each by the answer for its own row |
| SubmitAnswers.MediumIsAnswered | server/src/tweet_submit/execute/mod.rs:104-118 | a media object that counts is told once of itself, of its resource and of the transfer of that |
| SubmitBatch.FailTweets | server/src/tweet_submit/execute/mod.rs:66-77 | the union of eight index sets, in whatever order, is the tweets that take part: each gets one failure |
| SubmitBatch.ExecutePreparedSubmit | server/src/tweet_submit/execute/mod.rs:11-133 | with the strings preloaded, every object is told exactly once of each thing it is due, as its statement answered; otherwise each object with anything to write is told once that the preload failed, of no write, and has failed |
| SubmitBatch.Submit | server/src/tweet_submit/handler.rs:16-19 | the same from input to reports: one report per object, aligned with the input; the rows that are sent, the answers told and how each object ends; a refused object is told only why |
| SubmitResult.SummarizeResults | server/src/tweet_submit/result.rs:80-97 | each total counts the objects that ended that way, and together they are all objects |
| SubmitResult.FinishMeans | server/src/tweet_submit/result.rs:47-77 | an object ends as accepted exactly if something was accepted and nothing failed, as skipped if neither, as partial if something failed and something did not |
| SubmitResult.AllAcceptedEndsAccepted | server/src/tweet_submit/result.rs:47-77 | an object whose operations are all accepted ends as accepted |
| StringDict.InsertKeepsInverse | server/src/string_dict.rs:235-239 | caching a row of the table keeps the two directions inverse to each other |
| StringDict.ReverseIsInverse | server/src/string_dict.rs:94-104 | the two maps a refresh builds are inverse to each other |
| StringDict.StepKeepsConsistent | server/src/string_dict.rs:83-239 | every step of any caller keeps the cache inverse and within the table |
| StringDict.RunKeepsConsistent | server/src/string_dict.rs:83-239 | so does every interleaving of refreshes, lookups and inserts |
| StringDict.CachedStaysCached | server/src/string_dict.rs:108-239 | through any interleaving of lookups, inserts and added rows in which no refresh ends, what is cached stays cached under the same id |
| StringDictCache.Database.DictId | server/migrations/20260408000030_tweet.sql:183-220 | an existing row keeps its id, a missing one gets an unused id within 16 bits; it fails exactly without connection or without an id left, and then changes nothing |
| StringDictCache.Database.DictIds | server/src/string_dict.rs:200-222 | ids for exactly the entries that are not blank; it fails only without connection or when the ids do not reach for the new rows, and then leaves the table alone |
| StringDictCache.TrimmedStaysTrimmed | server/src/string_dict.rs:205-211 | the statement's own trimming changes nothing the program has trimmed |
| StringDictCache.StringDictCache.Refresh | server/src/string_dict.rs:83-106 | the cache becomes the table as it was read, both directions inverse, whatever is added meanwhile; a failure changes nothing |
| StringDictCache.Load | server/src/string_dict.rs:77-81 | the program starts with every row that was there when the cache was loaded |
| StringDictCache.StringDictCache.EnsureId | server/src/string_dict.rs:124-151 | blank is no id, cached costs nothing, anything else costs one statement and is cached, with other callers in between; it fails only without connection or without an id left; alone, a failure changes nothing |
| StringDictCache.StringDictCache.EnsureMany | server/src/string_dict.rs:168-233 | afterwards everything wanted is cached, for at most one statement and none if it all was, with other callers before and after every access; it fails only without connection or when the ids do not reach; alone, exactly the wanted keys have been added, and a failure changes nothing |
| StringDictCache.StringDictCache.Missing | server/src/string_dict.rs:178-194 | the wanted keys that were not cached when looked at, each once; all other wanted keys are cached |
| DictPreload.CollectUserSnapshotDicts | server/src/tweet_store/dicts.rs:97-139 | collects exactly the strings the payload builder of snapshots looks up |
| DictPreload.CollectTweetPlaceDicts | server/src/tweet_store/dicts.rs:141-159 | the same for places |
| DictPreload.CollectTweetDicts | server/src/tweet_store/dicts.rs:161-178 | the same for tweets, with both texts |
| DictPreload.CollectTweetPolicyDicts | server/src/tweet_store/dicts.rs:180-194 | the same for policies |
| DictPreload.CollectTweetCommunityNoteDicts | server/src/tweet_store/dicts.rs:196-208 | the same for notes |
| DictPreload.CollectMediaDicts | server/src/tweet_store/dicts.rs:210-229 | the same for media with size variants, tags and warnings |
| DictPreload.CollectMediaResourceDicts | server/src/tweet_store/dicts.rs:231-245 | the same for resources with their video variants |
| DictPreload.CollectAnnotatedTextDicts | server/src/tweet_store/dicts.rs:247-253 | the same for the styles of a text |
| DictPreload.CollectAll | server/src/tweet_store/dicts.rs:14-21 | all collectors together: exactly the strings that the records of the batch hold, each under the meaning of its field, which are those of the lookups |
| DictPreload.LookupsAreHeld | server/src/tweet_store/payloads.rs:4-427 | what the payload builders look up is exactly what the fields of the records hold, under the right meaning |
| DictPreload.PreloadSubmitBatchDicts | server/src/tweet_store/dicts.rs:4-23 | one statement at most; after success every lookup of the batch is a cache hit, whatever other callers do; alone, nothing else has been cached |
| DictPreload.OthersKeepHits | server/src/string_dict.rs:108-239 | while others add and cache rows, a hit stays a hit with the same answer |
| DictPreload.BuildPayloads | server/src/tweet_store/payloads.rs:4-427 | lookups that are hits send no statement, cannot fail and answer the ids of the table, with other callers before each of them |
| DictPreload.PreloadAndBuild | server/src/tweet_store/dicts.rs:4-23 | a whole batch is preloaded and looked up with one statement at most, whatever other callers do in between; it fails only without connection or when the ids do not reach for the new strings |

## Left out

- RangeTransfer.UploadMultipartRangeInner: does not model the limit on concurrent uploads; a semaphore delays an upload but does not change which completions are possible.
- RangeTransfer.CompleteMultipartWithHash: does not model ETags, the S3 calls, or the abort of a failed multipart upload (server/src/transfer/upload.rs, lines 429 to 451); a failed transfer stores nothing here.
- TransferQueue.TransferTable.EnqueueTask: takes one task at a time and identifies it by its source (medium and recording time, which are unique); finding the source record of a request, the inserted media columns and the batch answer are not modelled.
- TransferLease.LeaseSafety: assumes that a mark either takes effect once or not at all; a transaction whose commit is reported as failed but took effect is not modelled.
- SearchIndex.IndexWriter.IndexGroup: a failed commit leaves the buffer as it was; a commit that takes effect partly is not modelled, nor is what other threads see in the middle of a write.
- SearchFreshness.CompletedMeansFresh: records are added and changed but never removed, as in the code.
- SearchWorker.SearchSystem.RunWorkerLoop: one worker, for as many rounds as it lives; a process that dies in the middle of a round is in the transition system only. Kinds that cannot be parsed, which the column excludes, are not modelled, nor are the pauses between rounds.
- TransferWorker.TransferSystem.RunWorkerLoop: the transfer of the body inside an attempt is a success or a failure here; `MediaTransfer` models it. The pauses between rounds are left out.
- SubmitPrepare.PrepareSubmitBatch: conversions of profiles, places, tweets and media are given by their outcomes, so that a converted record is only a token; the ids that are looked up once for the batch before the loops, and handed to the conversions, are part of these outcomes.
- SubmitBatch.Submit: the outcome of the preload is a parameter, `DictPreload` models it; the limit on the items of a batch is left out, and so is the name of the field in the message for a bad id.
- SubmitWrites.EnqueueTransfers: what the queue stores is in `TransferQueue`; here it only answers. `SubmitWrites.WriteWithStatuses` and `SubmitWrites.WriteChanged` identify a row by its record.
- StringDictCache.StringDictCache.EnsureMany: a statement is one step of the table, whatever locks it takes; the identity column is a counter without gaps.
- DictPreload.BuildPayloads: a payload builder is the sequence of lookups it makes; the fields it copies are left out.
- ObjectResultBuilder and the vectors of a batch are values in fields that are reassigned: Rust owns each element in one place, so there is no aliasing to model.
- Keyset.ListTweets: a table holds the rows that the SQL filter selects; the filter itself, and the parsing of the parameters, are left out.
- A lookup in the hash maps of `resolve_submit_lookup_ids` (categories, hashtags, symbols) and `collect_lookup_text`: merging by first known value, as proved for registration dates.
- `build_user_query` and author names that resolve to nobody: no filter is promised there.
- Tantivy's parser, tokenizers and scoring, lower-casing, and the Unicode classes: parameters with the few facts that are used.
- HTTP, TLS, SQL connections, presigned URLs, SHA-256, JSON encoding and decoding of cursors, enum parsing of database values: input and output or library code.
- Null-filling upserts on composite columns, the SQL functions `tweet.write_*` and `tweet.append_*_if_changed`: not part of this model.
- Limits on the length of recorded error messages, audit rows of admin transitions, `server/src/admin/v1.rs`, the web interface, routing and configuration loading.
