# Streamuploader Drive: protocol, audit chain, sanitizers and guards

Streamuploader's Drive keeps the state of files in an append-only journal of full-state events in an
object bucket. One indexer per tenant folds the journal in bounded batches into a cache, one meta object
per file and a search index. It publishes generations of the index (segment files first, the pointer
last), which followers load and refresh from a bounded change history, and it extends a hash chain of
checkpoints over the journal. Servers answer from the cache with the journal tail laid over it. Beside
the Drive stand byte-level metadata sanitizers for uploads, an id generator that makes journal keys sort
by time, and an inspector of nested archives with a shared budget.

The project models these parts and proves, for all inputs and all runs, what they are for. The yardstick
of the Drive is one sentence: the state of a file is its last state event in the journal
(`States.Newest`).

## How it is organised

| modules | subject |
|---|---|
| Journal, States, FoldFacts, Folding | the journal and its paged listings; when a map of states is right about a part of it; folding a page |
| Machine | the whole protocol as a step system: appends, every write of an indexer run, failures, crashes, restarts, rebuilds, follower refreshes, two-step reads |
| ChainSafety, FoldSafety, FollowerSafety, ReaderSafety | what every step keeps |
| Protocol, Witnesses | the results over whole runs, and the runs that show their conditions are needed |
| Documents, IndexerState, Indexer, RebuildWitness | the indexer as a class over its bucket, directory and memory, with the index, the extracted texts and the pending texts, while others write; what a failed rebuild leads to |
| Followers | a follower as a class that refreshes its cache while the indexer writes |
| History, Segments | the change history of a pointer; publishing, retiring and sweeping segment files |
| Merkle, Audit, AuditStore, Checkpoints, AuditedRuns | checkpoints, the chain, the verifier, and why what the indexer chains verifies |
| Overlays, Search | the read path of a server; listings and facet counts patched with the overlay |
| Wrappers, Faults | results and options; how reads and writes may end |
| Bytes, Bmff, BmffOutput, Png, Webp, Jpeg | the metadata sanitizers as refinements of parse, filter, serialize |
| Ulid, Archive | ids, calendar folders and key order; nested archive inspection |

In the machine every write is a step of its own, and between two steps anything else may happen. A write
that the indexer saw fail may have been applied (`CommitUnseen`, `Publish(false)`, `AppliedButFailed`, or
the write followed by `Fail`). `Crash` loses the memory, `LoseDirectory` the index directory. Runs are
sequences of enabled steps from the empty bucket (`Machine.Runs`). A careful run (`RunsCarefully`) sets the
last key of a rebuild only when the meta objects are prefix-closed; the checkpoint results need no such care.

In the classes a write ends as `Faults.Outcome` says: unapplied, applied unseen, or applied and seen. Every
method promises what holds however its writes end. In a call that is `calm` no write fails, and the method has
to do all of its work. Before every text that the indexer looks for, servers may append events and extraction may
write texts (`Indexer.Inputs.Meanwhile`), unless the call is `alone`; between calls they may do so anyway.

Deletions and documents go to the index writer and stay uncommitted there until a commit, also one of a later run,
or until the writer ends; a call of it that fails may have ended it (`Indexer.staged`).

The indexer's state has a `Quality` of three parts that the code can lose one by one: the folded states reach
the last key, the documents of the memory and the saved state are right, those of the published snapshot are.
Every method starts from any quality and says which one it leaves, so that no reachable state is excluded.

## Assumptions

- One indexer per tenant; it is not run twice at once.
- The bucket is strongly consistent and lists keys in order.
- Every appended key sorts after every key the indexer has already listed. Keys come from the writer's
  clock, and nothing in the code checks it. Keys appear as their ranks in key order; module Ulid relates
  ranks to times.
- A listing of the overlay returns less than its limit. `Overlays.Server` keeps the cut-off case, without
  a claim about what is then read.
- An extracted text never changes once it is written (`Documents.TextsGrow`).
- The clock of publishes and sweeps does not go back (`Segments.Store`).
- The index writer does not end between the calls of a run without one of them failing.
- A publication lists every file once.
- Segment files never change under their name, and the pointer is not removed from outside.
- A commit or a reset never gives the local index the opstamp of the stored pointer by coincidence.
- The schema of the published index is that of the sidecar.
- Hashes are function parameters; where a result needs injectivity its lemma asks for it. The same holds for the
  serialization of checkpoints.
- The state of a file is what the journal carries; fields the indexer fills from extracted text are
  projected away.

## What the code does not do

Seven findings are stated as lemmas or methods about the code as it is.

- A rebuild empties the index first. If it then fails in a live process, for instance because the meta objects
  cannot be read, the memory keeps its last key, and the next tick of the loop (drive/indexer/indexer.go:402-421)
  folds only newer events, saves a state file over an index without the older files and publishes it. The files
  stay unindexed through all later runs and publishes, and a restart takes the index over as it is:
  `RebuildWitness.FailedRebuildLosesDocuments`, `RebuildWitness.StaysUnindexed`. The emptied index is right exactly
  if no settled live file is folded (`IndexerState.WipedIsRightIff`), and the run after it exactly if each of them is
  folded again or had been handed to the index writer before the rebuild failed
  (`IndexerState.RunAfterWipeIsRightIff`).
- A rebuild after a stop inside the write loop loses an event for good, although the comment in
  drive/indexer/indexer.go:841-842 says that the journal fills the gap: `Witnesses.StopInsideWritesLosesEvent`.
  `Protocol.PrefixClosedIsFold` and `IndexerState.RebuiltIsCoveredIff` say exactly when a rebuild is right.
- If events of one file arrive out of key order while a read is under way, it can return a state that was never
  the newest: `Witnesses.OutOfOrderReadIsNeverNewest`, with the exact condition in `Protocol.ReadsAreNewestIff`.
- The large form of a rewritten box states eight bytes fewer than it writes: `BmffOutput.OverlongMisstatesItsSize`.
  The output then does not parse back to the filtered contents, and only then: `BmffOutput.OutputReparses`, for
  real inputs `BmffOutput.LargeMovieBreaks`.
- One fill byte makes the JPEG metadata test misread a length. It can hide an APP1 segment that the sanitizer
  removes (`Jpeg.FillHidesApp1`), and it can make the test report one in a file that has none
  (`Jpeg.FillShowsApp1`). `Jpeg.ScanIsRightIff` says for which files the test is right.
- A declared size of 2^63 bytes or more is counted as a negative number. An archive with one such entry can pass
  although it declares more than the limits allow (`Archive.OversizedEntryLowersTheCount`). Declared bytes and entries
  of an accepted upload are within the limits exactly if no entry at any level is of that size
  (`Archive.UsageIsBoundedIff`); for any 64-bit limits, the bytes are exactly if their sum is below 2^63
  (`Archive.BytesAreBoundedIff`).
- An id is not always later than the one before (`Ulid.NextIsLaterIff` says when it is). From the year 10000 on keys
  do not always sort as their ids: `Ulid.KeysSort` says for which years they do, and `Ulid.FiveDigitYearsSort` has two
  keys that do not and two that do.

## Model

| member | source | states |
|---|---|---|
| Protocol.ReadIsNewestAtSomeInstant | drive/server/overlay.go:24-80 | in every careful run, if the tail has the file or its events that arrived since the tail was listed arrived in key order, a two-step read returns the newest state at some instant between listing the tail and looking into the cache, and unknown only if there was none |
| Protocol.ReadsAreNewestIff | drive/server/overlay.go:24-80 | and only then: for what the cache of a reachable reader may hold, the read is the newest at some instant if and only if that condition holds, per file and per read |
| Protocol.ReadIsNotStale | drive/server/overlay.go:66-80 | with no condition on the order of appends, a read is at least as new as every state the journal held when the tail was listed, and is what some event says |
| Protocol.LooksPastFence | drive/server/overlay.go:58-64 | after a server invalidates its overlay, every later look, fresh or from the kept overlay, holds a tail listed at that instant or after it |
| Protocol.FollowerIsExact | drive/snapshot/follower.go:181-211 | through failed and half-done refreshes, the incrementally refreshed cache and a full reload, each patched with the journal after the served key, both give the last state event of every file |
| Protocol.IndexerIsExact | drive/indexer/indexer.go:556-571 | between any two writes of a run or a rebuild, the indexer's cache and the meta objects patched with the journal after the last key are exact |
| Protocol.PrefixClosedIsFold | drive/indexer/indexer.go:798-843 | the meta objects are the fold of the journal up to their newest event if and only if they are prefix-closed |
| Protocol.CompleteFoldIsPrefixClosed | drive/indexer/indexer.go:556-571 | when no meta object is ahead of the last key, the meta objects are prefix-closed |
| Protocol.PrefixClosedIffTailWritten | drive/indexer/indexer.go:557-571 | in every careful run the meta objects are prefix-closed if and only if the files of all events after the last key, up to the newest event written, are written, which a look at the journal tail tells before a rebuild |
| Witnesses.StopInsideWritesLosesEvent | drive/indexer/indexer.go:557-562 | a run stopped between two meta writes, the index directory lost, and a rebuild: the meta objects are not prefix-closed and a file's state is lost |
| Witnesses.OutOfOrderReadIsNeverNewest | drive/journal/store.go:39-72 | a run in which an earlier event of a file arrives late and a read returns a state that was the newest at no instant of the read |
| ChainSafety.ChainCoversJournal | drive/indexer/indexer.go:588-623 | in every run, with failed and doubtful checkpoint writes, crashes, adoptions and rebuilds of any kind, the chained keys are the journal's keys up to the last one covered, in order, each once |
| ChainSafety.BatchIsRange | drive/indexer/indexer.go:600-612 | the gap behind the head and the folded entries after it are together the events between the head and the last folded key |
| ChainSafety.AcknowledgedCheckpointLasts | drive/indexer/indexer.go:588-623 | in every run an acknowledged checkpoint comes right after the head with the events between the two, and it and the chain before it stay as they are through everything that follows |
| Checkpoints.DueIsRange | drive/indexer/indexer.go:600-616 | what is chained after a fold is the journal range between the head and the last folded key, each event as it is covered |
| ChainSafety.ListIsSteady | drive/indexer/indexer.go:449-470 | a listed batch is exactly a range of the journal that later appends leave alone |
| FoldFacts.TodoIsFold | drive/indexer/indexer.go:456-508 | the newest state per listed file, with the re-read pending files, is at least as new as every event up to the end of the batch, and misses no file |
| FoldSafety.PutMetaIsSafe | drive/meta/cache.go:131-143 | writing one meta object keeps every published generation, saved state and live process right |
| FoldSafety.PublishKeepsBucket | drive/indexer/indexer.go:675-737 | a pointer put at the last folded key keeps generations ordered and its change list names every file with an event since the one before |
| FoldSafety.StartIsSafe | drive/indexer/indexer.go:258-337 | resuming, adopting or starting a rebuild gives a process that is right about everything published, and marks a full change when the opstamp shows an unpublished commit |
| FoldSafety.RekeyIsSafe | drive/indexer/indexer.go:798-846 | a rebuild over prefix-closed meta objects reaches every published generation |
| Followers.Follower.Refresh | drive/snapshot/follower.go:112-177 | success serves the generation that was newest at the start, failure the old one; in both cases the cache reaches the end of the generation served, whatever was written meanwhile; without faults it succeeds |
| Followers.Follower.ReadChanged | drive/snapshot/follower.go:200-210 | re-reading the named files one by one, a gone file is dropped; a failed read leaves a mixture that is still right |
| Followers.Follower.Reload | drive/meta/cache.go:74-110 | all listed meta objects are read, then the cache is swapped in one step |
| Followers.Follower.ServesNewest | drive/snapshot/follower.go:42-51 | the cache under the journal after the served generation gives every file's newest state |
| FollowerSafety.UnnamedIsUnchanged | drive/snapshot/pointer.go:143-173 | a file with an event since the served generation is named by a change list that is not full |
| FollowerSafety.RefreshIsSafe | drive/snapshot/follower.go:181-200 | a file the refresh does not read is already as new as the new generation |
| FollowerSafety.ReadFileIsSafe | drive/snapshot/follower.go:200-210 | re-reading or dropping one file keeps the cache right for the served and the new generation |
| ReaderSafety.RekeyReaches | drive/indexer/indexer.go:798-846 | the last key a rebuild sets is not behind any state event the process had reached, so tails already listed stay usable |
| Indexer.Indexer.RunOnce | drive/indexer/indexer.go:439-581 | from any state, wherever the run stops and whatever arrives meanwhile, the quality of cache, meta objects, saved state and documents is kept, and files without news keep their documents; a finished run, and without faults every run finishes, has folded the page it listed and left no text pending that was ready then |
| Indexer.Indexer.WriteFold | drive/indexer/indexer.go:557-567 | cache and meta object of each file are written in turn; when all are, and without faults all are, both hold exactly the folded states over what they had, and reach the end of the batch |
| Indexer.ReadTexts | drive/indexer/indexer.go:515-541 | every live folded file gets a document with its state and the text stored under its text key, or without text and then stays pending under that key, which had none when the reading began; deleted files get neither |
| Indexer.Indexer.Rebuild | drive/indexer/indexer.go:782-858 | over any meta objects: a finished rebuild has folded the page after their newest event, with right documents if they were prefix-closed; one that fails before the last key moved leaves the old memory without promised documents and without a state file, over an index that is empty or has the rebuilt documents, some of which may be uncommitted |
| Indexer.Indexer.Start | drive/indexer/indexer.go:258-347 | adopts, resumes or rebuilds by the saved and the published generation and by documents without meta objects; a finished start has folded the page after the key it took over and saved that, with the quality of what it took over, and is at the published generation |
| Indexer.Indexer.Adopt | drive/indexer/indexer.go:350-389 | a finished adoption has exactly the published index, key, pending texts and generation, saved, and the meta objects in its cache; one that fails has left the old state file, so that the next start adopts again, or saved all of it |
| Indexer.Indexer.Publish | drive/indexer/indexer.go:675-755 | the next generation is the index as it is, as right as its documents; a failed write may have been applied; success has saved the new generation |
| Indexer.Indexer.CatchUp | drive/indexer/indexer.go:402-437 | repeated runs end, and then cache, meta objects, index and pending texts are what one pass over the journal and the texts gives: every live file with its newest state and the text stored under its text key, without text if it has no key or nothing is stored under it |
| IndexerState.StageKeeps | drive/indexer/indexer.go:546-551 | handing deletions or documents of a fold to the index writer leaves the documents right for the memory and for the saved state, whether and whenever they are committed, so that replaying the batch is harmless |
| IndexerState.CommitKeeps | drive/indexer/indexer.go:552-556 | so does the commit, which may come before the last key moves or be lost |
| IndexerState.MoveKeeps | drive/indexer/indexer.go:568-571 | moving the last key and the pending texts after all writes makes the whole batch right |
| IndexerState.RebuildKeeps | drive/indexer/indexer.go:782-846 | documents, pending texts and last key taken from prefix-closed meta objects are right, whatever index there was before |
| IndexerState.RebuiltIsCoveredIff | drive/indexer/indexer.go:798-846 | from meta objects that reached the last key, the rebuilt state reaches its key and everything published if and only if they were prefix-closed |
| IndexerState.WipedIsRightIff | drive/indexer/indexer.go:782-787 | an emptied index under the old memory is right if and only if no live file without newer events is folded |
| IndexerState.RunAfterWipeIsRightIff | drive/indexer/indexer.go:439-571 | a run that follows, whose commit takes along what the rebuild had upserted before it failed, makes the documents right if and only if every such file is folded again or was upserted |
| IndexerState.GrowthKeeps | drive/indexer/indexer.go:449-470 | events after every listed key and new texts, arriving between any two steps, spoil nothing that was promised |
| RebuildWitness.FailedRebuildLosesDocuments | drive/indexer/indexer.go:402-421 | a live file is folded and indexed, a rebuild fails, a run follows, it publishes and restarts: everything is folded, and index and snapshot lack the file |
| RebuildWitness.StaysUnindexed | drive/indexer/indexer.go:402-421 | however many runs, publishes and resumed starts follow, in any order and however they end, a file without news that is neither indexed nor with the index writer nor pending stays so |
| RebuildWitness.BareMisses | drive/indexer/indexer.go:782-836 | that is what a failed rebuild leaves of every file that was not pending and that it had not upserted |
| Indexer.RunsAreConfluent | drive/indexer/indexer.go:402-581 | two indexers over the same journal and texts, from any states with right documents, end repeated runs with the same cache, meta objects, index and pending texts, and index exactly the live cached files |
| Documents.FoldingIsConfluent | drive/indexer/indexer.go:439-581 | two indexers that have caught up with the same journal and texts, as runs with right documents do, hold the same cache, meta objects, index and pending texts, whatever batches and replays led there, and index exactly the live cached files |
| Documents.CaughtUpIsCanonical | drive/indexer/indexer.go:471-541 | cache, meta objects, index and pending texts of a state that has caught up are a function of the journal and the texts |
| Documents.CanonicalText | drive/indexer/indexer.go:515-541 | that function: a live file is indexed with its newest state and the text stored under its text key, or without text, and then it is pending exactly if it has a key; deleted and unknown files are neither |
| Indexer.FullRunCatchesUp | drive/indexer/indexer.go:449-455 | a finished run whose page was not full has caught up, if nothing was written since |
| Folding.FoldPage | drive/indexer/indexer.go:449-470 | the loop over a page of entries computes the newest state per file after the start |
| Journal.PageIsRange | drive/memstore/memstore.go:156-174 | one listing returns exactly the keys between its start and its last key, and a page that is not full leaves none |
| Journal.Store.ListRange | drive/journal/store.go:97-124 | paging returns every event after the start up to the bound, in order, each once, and ends |
| Journal.RangeIsExact | drive/journal/store.go:97-124 | what it returns: an event is in it if and only if its key is after the start and not after the bound; in key order, each as it is stored |
| Journal.Store.ListAfter | drive/journal/store.go:74-94 | the events of one listing in key order, each as it is stored; whatever it leaves out comes after a full page |
| Journal.Store.Append | drive/journal/store.go:36-72 | a state event is stored under its key exactly as it was written, field by field, but with that key as its last event; another event is stored as it is; nothing else changes |
| Protocol.AppendIsNewest | drive/journal/store.go:53-72 | in every careful run a state appended after the other events of its file is the newest one, deleted or not, exactly as it was written, and other files keep theirs |
| History.AppendHistory | drive/snapshot/pointer.go:175-191 | the longest end of history and change within 64 generations and 5000 ids, or one entry; a full change replaces all |
| History.LongestFittingEndIsUnique | drive/snapshot/pointer.go:175-191 | there is one such end, so that this says everything about the result |
| History.HistoryIsContiguous | drive/snapshot/pointer.go:175-191 | over any run of publishes the history is a contiguous range ending at the last generation, full only in front, within both bounds |
| History.ChangesSince | drive/snapshot/pointer.go:138-173 | the loop over the generations since the served one, on any history |
| History.AnsweredInRuns | drive/snapshot/pointer.go:143-173 | on a history that publishes built, the answer is decided by the served generation and the start of the history |
| History.SinceIsExact | drive/snapshot/pointer.go:138-142 | a list of ids is exactly what changed in the generations since, none of which was full |
| History.HistoryStartsEarliest | drive/snapshot/pointer.go:175-191 | in every run of publishes the history reaches back to a change if and only if no later one is full and all from it on fit the bounds |
| History.AnswerDependsOnChanges | drive/snapshot/pointer.go:138-191 | so the answer depends on the changes since the served generation alone: their ids if none is full and they fit, everything if only the first is full and they fit, otherwise unknown; everything to a follower that is ahead |
| Segments.Store.Publish | drive/snapshot/store.go:116-232 | on every exit the stored pointer's files exist with their sizes; success puts exactly the published files, retires exactly what they replace and keeps what is not due; generations are numbered one by one from 1, and each carries the history of all changes published so far; without faults it succeeds exactly if all files are local segment files, and leaves nothing due |
| Segments.Store.ChangesSince | drive/snapshot/pointer.go:138-173 | on the stored pointer of any run of publishes: a list of ids is exactly what changed in the generations since the served one, none of which was full; a follower one generation behind is never told that nobody knows |
| Segments.Store.SweepOrphans | drive/snapshot/store.go:251-289 | only unknown segment files older than the grace period go, and after a complete sweep every segment file is listed, retired or young |
| Segments.PublishKeeps | drive/snapshot/store.go:160-218 | a pointer put keeps listed and retired names disjoint and duplicate-free and every earlier generation's files listed, retired or long done without |
| Segments.DeleteRetiredKeeps | drive/snapshot/store.go:164-179 | deleting a retired file after the grace period harms no generation that may still be read |
| Segments.DeleteOrphanKeeps | drive/snapshot/store.go:270-287 | deleting a file the pointer does not know harms no generation that may still be read |
| Segments.ReadableForGrace | drive/snapshot/store.go:116-120 | every file of every generation is there with its size until a later generation has done without it for the grace period |
| Merkle.MerkleRoot | drive/audit/checkpoint.go:99-127 | the level loop computes the root; no leaves have none |
| Merkle.RootOfHalves | drive/audit/checkpoint.go:113-126 | the root over a power of two of leaves is the pair of the roots of its halves, left before right |
| Merkle.RootOfThree | drive/audit/checkpoint.go:113-126 | an odd last node is hashed with itself |
| Merkle.RootDeterminesLeaves | drive/audit/checkpoint.go:113-126 | with an injective pair hash, lists of equal length with equal roots are equal |
| Merkle.OddRootRepeats | drive/audit/checkpoint.go:113-126 | repeating the last of an odd number of leaves keeps the root, so the length has to be checked too |
| Audit.RootAndCountDetermineLeaves | drive/audit/verify.go:110-112 | checkpoints that pass the root test with equal root and count cover the same digests |
| Audit.Build | drive/audit/checkpoint.go:129-157 | a checkpoint holds number, link and count, a leaf with key and digest for each event in order, the first and the last key, their root, and exactly the first registrations of objects |
| Audit.OriginalsAreFirst | drive/audit/checkpoint.go:142-154 | the originals are the registered objects with a key at the first event that names it, in order |
| Audit.OriginalsAreDistinct | drive/audit/checkpoint.go:142-154 | no object key is listed twice |
| Audit.EveryKeyHasAnOriginal | drive/audit/checkpoint.go:142-154 | every registered object with a key is listed |
| Audit.WalkLeaves | drive/audit/verify.go:116-127 | leaves not after the previous one are reported and not covered; the branch for leaves out of key order is unreachable |
| Audit.CoveredIncreases | drive/audit/verify.go:116-127 | covered keys strictly increase whatever the checkpoints contain |
| Audit.WalkFindsNothingIffClean | drive/audit/verify.go:96-131 | the walk reports nothing if and only if every checkpoint follows the ones before it, and then covers every leaf |
| Audit.LinkedIffNoBreakOrGap | drive/audit/verify.go:104-109 | no chain break and no sequence gap are reported if and only if every checkpoint has the next number and the digest of the one before, back to the genesis value |
| Audit.NumbersFollowIff | drive/audit/verify.go:104-106 | no sequence gap is reported if and only if the checkpoints are numbered one by one from 1 |
| Audit.LinksHoldIff | drive/audit/verify.go:107-109 | no chain break is reported if and only if every checkpoint carries the digest of the one before, the first the genesis value |
| Audit.RootsMatchIff | drive/audit/verify.go:110-112 | no root mismatch is reported if and only if every checkpoint has the count and the root of its leaves |
| Audit.VerifiedChainsAreEqual | drive/audit/verify.go:93-131 | with an injective digest, two chains without break or gap that end in objects of equal digest are the same object by object |
| Audit.Compare | drive/audit/verify.go:133-168 | the merge of the covered events with the journal's keys |
| Audit.FindingsAreExact | drive/audit/verify.go:144-168 | a covered event is reported if and only if it is gone, unreadable or changed, a journal event if and only if it lies in the covered range uncovered |
| Audit.EventFindings | drive/audit/verify.go:144-168 | which finding it is: missing, unreadable, modified or extra, each if and only if that has become of the event, with the number of the checkpoint that covers it |
| Audit.ComparisonIsExact | drive/audit/verify.go:133-168 | nothing is found about events if and only if the journal up to the covered end is what is covered, byte by byte; the counts are those of matching and of newer events |
| AuditStore.Chain.Verify | drive/audit/verify.go:83-198 | a verification run reports what the walk, the merge and the originals give, and stops at an unreadable checkpoint |
| AuditStore.ReportIsExact | drive/audit/verify.go:83-198 | a report is empty if and only if all checkpoints are readable and clean, the covered journal is intact, and for every original that a checkpoint registers the bucket holds a readable object, of the registered size if that is positive and of the registered digest if there is one and originals are hashed; the counts are then complete |
| AuditStore.FateIsReported | drive/audit/verify.go:171-196 | an original is reported missing if it is gone, unreadable if it cannot be read or hashed, modified if its size or its digest is another |
| AuditStore.CountsAreExact | drive/audit/verify.go:83-198 | whatever a run over readable checkpoints finds: the numbers of checkpoints, of events that are still as they were covered, of originals that are still as they were registered, and of newer events |
| AuditStore.Chain.Append | drive/audit/checkpoint.go:238-267 | the next checkpoint is written after the head, or nothing; a failed write may have been applied, and without faults none fails |
| AuditStore.Chain.NewestHead | drive/audit/checkpoint.go:199-213 | the head is the newest checkpoint's number, digest and last key, or the genesis value |
| Checkpoints.Checkpointer.LoadHead | drive/indexer/indexer.go:592-599 | the head this process knows, or on first use the newest of the bucket |
| Checkpoints.Checkpointer.Checkpoint | drive/indexer/indexer.go:583-623 | with the head known or loaded after a restart, exactly the batch of the step system is chained after it as one named object, or nothing, or the write was applied unseen; the head moves only when the write is seen to succeed |
| AuditedRuns.RunsVerify | drive/audit/checkpoint.go:129-157 | the chain left by any run of the step system verifies: no finding, every covered event verified, the rest counted as tail |
| Overlays.Server.OverlayStates | drive/server/overlay.go:22-56 | the newest unfolded state per file, of a listing now or within the time to live after the same key |
| Overlays.Server.ResolveFile | drive/server/overlay.go:66-80 | the overlay wins over the cache |
| Overlays.Server.WriteThenRead | drive/server/overlay.go:93-104 | a server that has written a state reads back exactly that state, deleted or not, if no event of the file comes after it, and otherwise the newer one |
| Search.List | drive/server/search.go:115-177 | which hits stay and which the overlay adds, with and without a text query, each once with its effective state; the total is corrected by the difference; without a query, if the index agrees with the cache, a first page is exactly the effective matching files and their number |
| Search.EffectiveIsNewest | drive/server/search.go:119-137 | the effective states that listings and counts are about are the newest states of the journal, if the cache reaches the last key |
| Search.Facets | drive/server/search.go:222-256 | every count changes by what the effective states count more or less than the cached ones, and children without files are left out; counts of the cached states become a recount over the effective ones |
| Search.Matches | drive/server/search.go:21-46 | live files with every wanted facet, a path equal to it or, unless exact, one whose parts start with its parts, and with the query in name or author letter for letter in either case |
| Search.UnderIffPartsStart | drive/server/search.go:28-32 | a path is at or below a facet if and only if its parts between slashes start with those of the facet |
| Search.ChildrenUnder | drive/server/search.go:260-282 | the direct children the paths fall under, each once |
| Search.ChildIsDirect | drive/server/search.go:266-275 | a path falls under a child if and only if it is that child or lies below it |
| Bmff.SanitizeBoxes | internal/server/sanitizer.go:427-483 | the walker returns what parse, filter and serialize give, with the same errors |
| Bmff.WriteBox | internal/server/sanitizer.go:506-522 | the header forms by size, the large one as written |
| Bmff.ParseEncodes | internal/server/sanitizer.go:427-450 | an accepted input is the serialization of its boxes |
| Bytes.BE32IsOrdered | internal/server/sanitizer.go:437 | four bytes are ordered as the numbers they hold, so the first is the most significant |
| Bytes.BE64IsOrdered | internal/server/sanitizer.go:444 | so are eight |
| Bytes.BE16IsOrdered | internal/server/sanitizer.go:551 | so are two |
| Bytes.LE32IsOrdered | internal/server/sanitizer.go:688 | the sizes of WebP chunks are ordered as their bytes from the last to the first |
| Bmff.FilterPrunes | internal/server/sanitizer.go:451-478 | filtering keeps type, payload and order of all other boxes at every level it descends into |
| Bmff.FilterRemovesMetadata | internal/server/sanitizer.go:451-456 | no metadata box is left at any level |
| Bmff.MetadataTypes | internal/server/sanitizer.go:485-496 | which boxes those are, by their four characters, and uuid boxes that mention XMP or Exif in either case of letters |
| Bmff.ContainerTypes | internal/server/sanitizer.go:497-504 | which boxes are descended into, by their four characters |
| Bmff.BoxLayout | internal/server/sanitizer.go:432-450 | the bytes of a box: its own length in the form it has, its type, its payload at the end |
| BmffOutput.OutputReparses | internal/server/sanitizer.go:506-522 | the output parses to the filtered contents if and only if no rewritten box has the large form; for inputs under 4 GiB none has, and the output is not longer |
| BmffOutput.LargeMovieBreaks | internal/server/sanitizer.go:427-483 | a movie box of more than 4 GiB with one metadata box: the output does not parse back to the filtered contents |
| BmffOutput.OverlongMisstatesItsSize | internal/server/sanitizer.go:517-521 | a rewritten box of the large form states eight bytes fewer than it has |
| BmffOutput.SanitizeGuarantees | internal/server/sanitizer.go:427-483 | unchanged means identical; for inputs below 4 GiB the output re-parses, is clean, is the pruned input, is not longer, and a second pass returns it |
| Png.Validate | internal/server/sanitizer.go:595-634 | accepts exactly the files with sound chunks, a header before the end chunk and nothing after it |
| Png.Sanitize | internal/server/sanitizer.go:636-651 | on an accepted file, the kept chunks in order |
| Png.HasSensitiveMetadata | internal/server/sanitizer.go:653-666 | true exactly if an accepted file has a metadata chunk |
| Png.SanitizeGuarantees | internal/server/sanitizer.go:595-666 | the output is accepted, clean and unchanged by a second pass; it equals the input exactly if that had no metadata |
| Png.MetadataTypes | internal/server/sanitizer.go:668-675 | which chunks are metadata, by their four characters |
| Png.FrameTypes | internal/server/sanitizer.go:595-624 | what the signature is, and which chunks are the header and the end |
| Png.ChunkLayout | internal/server/sanitizer.go:604-614 | the bytes of a chunk: length, type, data and the checksum of type and data |
| Webp.Sanitize | internal/server/sanitizer.go:677-713 | the kept chunks in order under a new header, or the input if nothing was dropped |
| Webp.HasSensitiveMetadata | internal/server/sanitizer.go:715-736 | true exactly if a metadata chunk is found before the first defect |
| Webp.SanitizeGuarantees | internal/server/sanitizer.go:677-736 | the output is accepted, clean, states its size and is fixed by a second pass; it equals the input exactly if that had no metadata |
| Webp.ChunkTypes | internal/server/sanitizer.go:677-698 | which chunks are metadata, and what the header says, by their four characters |
| Webp.ChunkLayout | internal/server/sanitizer.go:687-693 | the bytes of a chunk: type, size with the lowest byte first, data, and a pad byte exactly if the size is odd |
| Jpeg.Sanitize | internal/server/sanitizer.go:524-563 | the segments except APP1 in order, without fill bytes, then the rest as it is |
| Jpeg.HasApp1Segment | internal/server/sanitizer.go:565-593 | the scan as the code does it |
| Jpeg.ScanFinds | internal/server/sanitizer.go:565-593 | on every well-formed stream the scan is true exactly if an APP1 segment comes before the first fill byte, or the scan from where the misread length leads is true |
| Jpeg.ScanIsRightIff | internal/server/sanitizer.go:565-593 | it tells whether there is an APP1 segment if and only if there is no fill byte, or an APP1 segment before the first, or the misread scan agrees |
| Jpeg.ScanIsExactOnPlain | internal/server/sanitizer.go:565-593 | without fill bytes the scan is true exactly if an APP1 segment is there |
| Jpeg.FillHidesApp1 | internal/server/sanitizer.go:565-593 | an APP1 segment after a fill byte is not found |
| Jpeg.FillShowsApp1 | internal/server/sanitizer.go:565-593 | after a fill byte an APP1 segment is found in a file that has none |
| Jpeg.SanitizeGuarantees | internal/server/sanitizer.go:524-593 | the output is accepted and clean; a second pass fixes it if and only if it has four bytes; it equals the input exactly if that had no APP1 segment and no fill byte |
| Jpeg.OneSegmentFile | internal/server/sanitizer.go:524-563 | byte by byte, a file with one segment: marker 0xe1 and its data go, any other segment stays |
| Ulid.Generator.NewULID | drive/journal/ulid.go:22-45 | 26 characters for the time and the random part, which is the last one plus 1 in the same millisecond; with the carry past 80 bits and the zero case as coded |
| Ulid.NextIsLaterIff | drive/journal/ulid.go:31-42 | an id is after the one before it if and only if its time is later, or the same with the last or the fresh random part not zero |
| Ulid.IdsIncrease | drive/journal/ulid.go:22-45 | in a run with a clock that does not go back, nonzero random parts and no carry, every id is after every earlier one |
| Ulid.Encode | drive/journal/ulid.go:55-75 | filling the characters from the end gives the digits of the number |
| Ulid.SymbolIs | drive/journal/ulid.go:13 | the digits are the ten figures and then the capitals in order without I, L, O and U |
| Ulid.UlidTime | drive/journal/ulid.go:77-91 | the value of the first ten digits, or the error for length or character |
| Ulid.TimeRoundTrips | drive/journal/ulid.go:77-91 | the time read from an id is the millisecond it was made for, below 2^50 |
| Ulid.IdsSort | drive/journal/ulid.go:55-75 | ids compare as their times and then their random parts |
| Ulid.KeysSort | drive/journal/event.go:57-63 | keys of events below 2^50 milliseconds compare as their ids do if and only if the years have equally many figures or the earlier year is at most the later one without its last figure; otherwise they compare the other way round |
| Ulid.MonthOfIs | drive/journal/event.go:60-63 | the month of a time is the one between whose first days, by the closed form of the Gregorian calendar, it lies |
| Ulid.FolderShows | drive/journal/event.go:60-63 | up to the year 9999 the folder is the four figures of the year, a slash, the two of the month, a slash |
| Ulid.NewYearKeysSort | drive/journal/event.go:60-63 | keys of the first events of a four-figure and a five-figure year sort the wrong way exactly if the former is above a tenth of the latter |
| Ulid.FiveDigitYearsSort | drive/journal/event.go:60-63 | the first key of the year 10000 sorts before that of 9999, but that of 20000 not before that of 1970 |
| Archive.Budget.AddEntry | internal/server/archive_guard.go:130-148 | counts one entry and its size in 64-bit signed numbers, and fails exactly when either is then too large |
| Archive.Inspect | internal/server/archive_guard.go:289-321 | an archive passes if and only if every test that does not concern the budget passes at every level and its sizes, as signed numbers and one after the other, fit what is left of the budget, which then holds them |
| Archive.AcceptableIff | internal/server/archive_guard.go:150-321 | passing those tests means that the archive and every archive in it are all right each for itself: names, kinds, paths, encryption, single sizes, running totals, ratio, streams, content and depth |
| Archive.ListingsAreNotInflated | internal/server/archive_guard.go:196-204 | every zip or 7z in an acceptable archive, at any level, declares at most the allowed ratio times its stored size, in 64 bits and, unless an entry declares 2^63 bytes or more, as a sum |
| Archive.StreamsAreNotInflated | internal/server/archive_guard.go:678-707 | every packed stream in it is at most the allowed ratio times its stored size long |
| Archive.InspectEntries | internal/server/archive_guard.go:150-210 | the loop over entries keeps the shared budget and the declared total in step, with the signed conversion of declared sizes; the declared bytes of a zip or 7z that passes are at most the allowed ratio times its stored size |
| Archive.CountStream | internal/server/archive_guard.go:678-707 | reading stops at the first limit passed and succeeds exactly for streams within all of them |
| Archive.AcceptableIsShallow | internal/server/archive_guard.go:238-247 | no archive inside an accepted one lies deeper than the policy allows |
| Archive.UsageIsSum | internal/server/archive_guard.go:130-148 | the entries and bytes that an archive declares over all levels are the sum of what it and every archive in it declare |
| Archive.InspectUpload | internal/server/archive_guard.go:49-86 | exactly the acceptable archives that fit the budget are accepted, with at most the allowed depth and, at every level, at most the allowed ratio of declared bytes to stored ones; under limits that leave room for one more entry their declared entries and bytes over all levels are within the limits if and only if none is declared with 2^63 bytes or more, and without such entries exactly the acceptable archives within the limits are accepted |
| Archive.UsageIsBoundedIff | internal/server/archive_guard.go:130-148 | for acceptable archives under limits that leave room for one more entry, fitting the budget means being within the limits if and only if no size turns negative |
| Archive.BytesAreBoundedIff | internal/server/archive_guard.go:130-148 | for any signed limits, the declared bytes of an archive that fits are within the limit if and only if their sum is below 2^63 |
| Archive.OversizedEntryLowersTheCount | internal/server/archive_guard.go:191-204 | an entry declared with 2^64 - n bytes makes room in the budget for n more |

## Left out

- HTTP handlers, the S3 client, the clamd and sidecar processes and tantivy: the index is a map from file to document, a commit is atomic.
- JSON encoding of events, pointers, states and checkpoints: values are stored as they are.
- What the index finds for a text query, scores, snippets, the order of hits, and pages after the first beyond what stays of them.
- Decompressors, content type and script tests, path cleaning, and inspection timeouts of archives: an entry says what they would find.
- Clock skew between writers, several indexers at once, a pointer removed from outside, a published index of another schema.
- The local index directory as files (downloads, pruning): a published generation is taken over as a whole. Its segment files are the subject of module Segments.
- The object lock of WORM mode, under which overwriting a checkpoint leaves the older version readable.
- Indexer.Indexer.RunOnce: ends before the checkpoint and the publish of the source's run, which are Checkpoints.Checkpointer.Checkpoint and Indexer.Indexer.Publish; the interleaving of all three with appends, reads and refreshes is in the machine.
- Indexer.Indexer.Rebuild: the meta objects are all loaded before the first text is read, where the source loads and reads file by file.
- Indexer.Indexer.StageDocs: an upsert that fails has put all of its documents in place or none.
- Protocol.ReadIsNewestAtSomeInstant: asks for the order of the events that arrived in between, because it fails without, as ReadsAreNewestIff says; ReadIsNotStale does not ask.
- Protocol.CompleteFoldIsPrefixClosed: one direction only, because meta objects ahead of the last key can be prefix-closed as well; PrefixClosedIffTailWritten has both.
- Followers.Follower.Refresh: the comparison of entity tags, the schema test, the download and the reload of the sidecar are a read that may fail.
- Overlays.Server.OverlayStates: says nothing about an overlay that was cut off at its limit.
- Search.List: the index returns a file once; the final sort is not modelled.
- Search.Matches: letter case is that of ASCII, and the query arrives trimmed.
- Bmff.SanitizeBoxes: the bound on a box reads size <= length - position over integers, where the source adds 64-bit numbers that could wrap; the branch for a prefix of a "meta" box is absent because "meta" boxes are dropped before it; lower-casing for the uuid test is that of ASCII.
- BmffOutput.SanitizeGuarantees: from 4 GiB on an output can be eight bytes longer per box than the input, so its length is bounded by the input's only below.
- Png.Validate: the checksum is a parameter.
- Segments.Store.Publish: names retired together keep the order of the previous pointer instead of being sorted.
- Ulid.KeysSort: for ids whose time is the event's millisecond, so not after a carry of the random part, and for times below 2^50 milliseconds, which an id can hold.
- Archive.Inspect: error codes and which of several failing tests is reported first are not modelled; a nested archive is one whole tree; the bytes of a stream are counted without wrapping, because a read is no longer than its buffer.
