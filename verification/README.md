# Verified models of the sovereign storage engine

This project models the storage core of the sovereign engine in Dafny and proves what that core
is there to guarantee. `dafny verify dfyconfig.toml` checks all of it.

**The bitemporal store.** Rows carry a validity interval and a system time. The memtable flushes
L0 files, the compactor merges an entity's L0 files into L1 files and may prune rows that a newer
row makes unreachable, and the reaper deletes merged L0 files behind it. `Store` is that directory
as a state machine between single object accesses: jobs and sweeps interleave and can stop
anywhere. `StoreSafety` and `AsOfCorrect` prove over every run whose compaction reads succeed that
no row is lost and that a point query returns what a scan of everything ever flushed would return.
`FailedReads` lets reads fail and says exactly which uploads then do harm, `PartialAnswers` that the
others leave every answer as it was; `Interleaved` takes a query's listings and downloads apart;
`Limits` holds the runs that go wrong; `TailFiles` says which files a query takes. `Sweep`, `Merging`, `Jobs`, `Resolver`, `RangeQuery`,
`Manifests` and `ObjectKeys` hold the code the machine abstracts:
the in-place prune, the merge, the sweep, the queries, the manifest text and the object names.
`Horizon` is the inference of the pruning horizon from concurrent queries.

**The write-ahead log.** `WalRecords` and `WalReplay` are the byte formats and the replay of
arbitrary files; `WalMeaning` says what each field of a replay is in terms of the events in the log,
and why a log is refused; `WalPrefixes` says which rearrangements of a file are noticed; `WalLog` is
about the files that appenders write; `WalProtocol` interleaves
appenders, syncs, crashes and reopenings; `WalWriter` is the writer, with its buffers filled in
place. `Crc32c` is the checksum itself, so that the detection of a changed byte is a theorem.

**The memtable.** `SkipOrder`, `SkipLinks`, `SkipMemory` and `SkipArena` are the skip list in one
byte array; `Packing`, `MemTable`, `Flusher` and `FlushedRows` the path of an event from a write to
a row of a file;
`MemTableProtocol` the locking, flushing and closing.

**The edges.** `Transport` reassembles frames from reads of any sizes. `Pii` masks digit runs.
`Layouts` fixes where each field of the byte formats stands.

## What the proofs found

The code is modelled as it is. Where a promise does not hold of it, a lemma shows the case and
another says when it does hold.

- A compaction goes on after a failed read and its manifest still lists the unread file. The file
  may be there all the same: then queries pass it over as soon as the manifest is written
  (`Limits.UnreadFileHidden`). Or a sweep, which runs concurrently
  (`cmd/sovereign-node/main.go:1551-1567`), may have removed it: then the upload replaces the L1 file
  that alone held a row (`Limits.FailedReadLosesRow`). The upload does no harm exactly when L1 then
  covers every row of the object it overwrites and every row it listed and did not read
  (`FailedReads.HarmlessIff`); queries then keep their answers
  (`PartialAnswers.AnswersSurviveFailedReads`). Without a failed read nothing is lost
  (`StoreSafety.NothingLost`), and without a sweep inside a compaction every listed file can be read
  (`Limits.ReadsStayPossible`).
- A query lists L1, then L0, then downloads. A compaction and a sweep between the two listings make
  it miss a file altogether (`Interleaved.OvertakenQueryMisses`). It returns a true answer when every
  file it does not download from L0 is covered by the L1 objects it listed
  (`Interleaved.InterleavedAnswer`), as when it listed every L1 object there is at the end
  (`Interleaved.AllListedSees`).
- A cap on the unmerged files makes a query leave out the oldest of them. It returns the truth
  exactly when the true row is in L1 or in one of the newest files that the cap lets it take
  (`AsOfCorrect.DurableIsTruthIff`, `TailFiles.CappedIsRecent`).
- Close waits for background flushes and for its own, not for one that another call of flush or
  close is doing, so it can return while a written row is still being uploaded
  (`MemTableProtocol.CloseReturnsEarly`). Everything is flushed when it returns exactly when no such
  call is uploading (`MemTableProtocol.FlushedAtCloseIff`).
- Object names compare as text. Numbers of different width can be listed out of order
  (`ObjectKeys.ListingOrderNeedsWidth`); `ObjectKeys.ListingOrderIff` says exactly when.
- The appenders do not bound a payload, replay does: one long entity id makes the whole log
  unreadable (`WalLog.ReplaysIffBounded`).
- A failed write is taken to leave no bytes. If it left a header, later appends could succeed and
  be hidden from replay (`WalProtocol.PartialWriteHides`).
- The manifest scan is documented as identical to the split-based reader it replaced
  (`internal/database/l1_compactor.go:1046-1051`, whose text is kept in
  `internal/database/manifest_stream_parse_test.go:80-98`). It is not when the first line is blank
  (`Manifests.BlankLineMisread`, `Manifests.ScanIsSplitIff`).
- With a negative backoff the horizon passes every query and an inference can be refused, though
  only one whose subtraction overflows (`Horizon.NegativeBackoffRetreats`,
  `Horizon.RefusedIffOverflow`).
- The number in a file name is the least system time inside exactly when the times are of one sign
  (`Flusher.FirstIsMinIff`); for the rows a query can return it is a bound anyway
  (`Flusher.NameBoundsRows`).
- The arena's test for room wraps for buffers within a slot's width of four gibibytes
  (`SkipArena.GuardExactIff`).
- A masked payload can hold a twelve-digit run brought by a digest (`Pii.DigestCanShowRun`,
  `Pii.MaskRunFreeIff`).
- The size test accepts a segment of the full limit. Its frame is eight bytes longer than a buffer
  that was never rounded up by the allocator can become, and closes the connection
  (`Transport.LargestFrameCloses`), while every smaller one passes (`Transport.SmallerFramesPass`).
  With any rounding, growth closes the connection exactly when a frame is longer than the size the
  doublings end at and that many bytes of it arrive (`Transport.Connection.HandleRead`); frames up to
  32 MiB never do (`Transport.HalfNotOverlong`).
- Comments in `internal/database/l1_compactor.go:1-60` say that a merge preserves all rows and that
  L0 files are not deleted; the code prunes when told to and the reaper deletes. The models follow
  the code.

## Model

| member | source | states |
|---|---|---|
| Rows.ScanIsAnswer | internal/database/query.go:1306-1343 | the scan loop returns the first row with the greatest positive system time among those the query admits, and nothing exactly when none is admitted |
| Rows.AnswerUnique | internal/database/query.go:1306-1343 | that meaning determines the answer |
| Pruning.SurvivingDominator | internal/database/l1_compactor.go:419-459 | a dominated row has a dominator that is itself kept |
| Pruning.SurvivorsDominateAlike | internal/database/l1_compactor.go:419-459 | the kept rows dominate exactly what all rows dominate |
| Pruning.PrunedNonEmpty | internal/database/l1_compactor.go:503-614 | pruning never empties a non-empty input |
| Pruning.PrunedSubsequence | internal/database/l1_compactor.go:503-614 | the result is an in-order subsequence holding exactly the rows the quadratic rule keeps |
| Pruning.PruneKeepsAnswer | internal/database/l1_compactor.go:419-459 | for every valid time and every transaction time at or above the horizon the scan picks the identical row, ties included, before and after pruning |
| Sweep.ProbeDecides | internal/database/l1_compactor.go:540-580 | containment in an interval of the live set decides dominance by any row of the whole input |
| Sweep.Mark | internal/database/l1_compactor.go:503-590 | the reverse batch sweep marks exactly the rows that some row of the full input dominates |
| Sweep.DominancePrune | internal/database/l1_compactor.go:503-614 | the in-place compaction leaves exactly the rows of the quadratic rule at the front of the slice |
| Merging.StableSortSorts | internal/database/l1_compactor.go:690-694 | the merge order is sorted by composite key and a permutation |
| Merging.StableSortStable | internal/database/l1_compactor.go:690-694 | rows with equal keys keep their order |
| Merging.PruneIdempotent | internal/database/l1_compactor.go:503-614 | pruning twice is pruning once |
| Merging.PruneRaised | internal/database/l1_compactor.go:503-614 | pruning at a horizon and later at a higher one is pruning at the higher one |
| Merging.PruneMergesPruned | internal/database/l1_compactor.go:690-719 | pruning the sorted merge of already pruned parts gives exactly what pruning the merge of the originals gives |
| ObjectKeys.ParseFormat | internal/database/query.go:1702-1717 | rendering and parsing a 64-bit integer are inverse |
| ObjectKeys.KeyRoundTrip | internal/database/query.go:1702-1717 | the number read from an L0, L1 or manifest name is the one it was built from; a negative one is never read as a bound |
| ObjectKeys.KeyInjective | internal/database/l1_compactor.go:946-970 | different first times give different names |
| ObjectKeys.ListingOrder | internal/database/l1_compactor.go:946-956 | among names of equal decimal width the listing order is the numeric order |
| ObjectKeys.ListingOrderNeedsWidth | internal/database/l1_compactor.go:946-956 | 10 is listed before 9 |
| ObjectKeys.ListingOrderIff | internal/database/l1_compactor.go:946-956 | the lower of two numbers is listed first exactly when it does not exceed the leading digits of the higher |
| ObjectKeys.TierOrder | internal/database/l1_compactor.go:946-956 | every L1 name sorts after every L0 name |
| StoreSafety.ListingIsSegment | internal/database/l1_compactor.go:642-672 | in every reachable state a listing names the remaining files oldest first |
| StoreSafety.UploadCovers | internal/database/l1_compactor.go:736-777 | an upload overwrites at most an L1 file all of whose rows the new one covers |
| StoreSafety.DeletedSuffix | internal/database/l0_reaper.go:190-262 | a delete removes the oldest remaining file, whose rows L1 covers, or nothing |
| StoreSafety.StepKeeps | internal/database/l1_compactor.go:642-812 | every action of flusher, compactor and reaper except a failed read keeps the invariant of the directory |
| StoreSafety.NothingLost | internal/database/l1_compactor.go:642-812 | over every run in which compaction reads succeed, every row ever flushed is stored or dominated, at or below the horizon, by a stored row |
| FailedReads.PartStepKeeps | internal/database/l1_compactor.go:642-812 | with reads that fail or succeed, every action whose upload, if it is one, is harmless keeps a weaker invariant: what left L0 or is named by a manifest is covered in L1 |
| FailedReads.AllReadHarmless | internal/database/l1_compactor.go:674-777 | an upload after reads that all succeeded is harmless |
| FailedReads.NothingLostIfHarmless | internal/database/l1_compactor.go:642-812 | over every run, reads failing or not, whose uploads are harmless every row ever flushed is stored or dominated by a stored row |
| FailedReads.HarmlessIff | internal/database/l1_compactor.go:674-812 | after any such run an upload is harmless, that is L1 then covers the overwritten rows and the listed rows not read, exactly when no continuation loses a row |
| FailedReads.HarmfulLoses | internal/database/l0_reaper.go:190-262 | otherwise writing the manifest and sweeping its files loses a row |
| Limits.ReadsStayPossible | internal/database/l1_compactor.go:674-680 | as long as no sweep deletes, every file a job listed can be read |
| Limits.FailedReadLosesRow | internal/database/l1_compactor.go:674-680 | a run in which a read fails after a sweep and the upload destroys the only copy of a row that nothing dominates |
| Limits.UnreadFileHidden | internal/database/query.go:466-480 | a run in which a read fails for a file that stays in place and every query for its row finds nothing as soon as the manifest is there; the next sweep loses the row |
| Jobs.Directory.Compaction | internal/database/l1_compactor.go:642-812 | one call is a run of the state machine, keeps its invariant, writes exactly the pruned sorted merge under its first time and lists what it read |
| Jobs.Directory.Reap | internal/database/l0_reaper.go:128-274 | one sweep is a run of the state machine, keeps its invariant and computes the fold of the manifests' sweeps |
| Jobs.SweepRemoves | internal/database/l0_reaper.go:150-274 | every listed manifest is counted once, and exactly those whose L1 file exists and whose deletes succeed are gone |
| Jobs.SweepTally | internal/database/l0_reaper.go:90-274 | over distinct names the report has the number of reaped manifests, of orphans, which are missing or lead to no L1 file, and of those that met a failing delete; and the L0 deletes are the sum of the keys before each first failing one |
| Jobs.SweepDeletes | internal/database/l0_reaper.go:196-262 | a file is gone exactly when a swept manifest with a present L1 file lists it before its first failing delete |
| Jobs.MergeReady | internal/database/l1_compactor.go:690-719 | what a job gathered sorts by system time and prunes to at least one row |
| Jobs.MergedExactly | internal/database/l1_compactor.go:690-719 | a merge holds, in key order, exactly the rows that no newer row at or below the horizon contains, with pruning off or no positive horizon all of them |
| Jobs.ExtractExactly | internal/database/l1_compactor.go:818-930 | of a file exactly the entity's rows are taken |
| Resolver.SkipIsByName | internal/database/query.go:1702-1717 | the skip by number is the skip by parsing the object's name |
| Resolver.ScanRows | internal/database/query.go:1306-1343 | the loop computes the scan |
| Resolver.LoadSuperseded | internal/database/query.go:1589-1637 | the loop collects exactly the keys of the manifests it does not skip |
| Resolver.ScanDurable | internal/database/query.go:430-600 | the durable part of a query: L1 newest first, then the capped tail, skips applied |
| Resolver.AsOf | internal/database/query.go:368-654 | the query computes the durable answer and merges the live rows onto it |
| AsOfCorrect.InvAnswering | internal/database/query.go:368-600 | in every reachable state each L1 object answers every query at or above the horizon with the truth or with something older, and L1 covers what L0 lacks or a manifest hides |
| TailFiles.CappedIsRecent | internal/database/query.go:468-503 | the capped tail has exactly the newest files in L0 that no manifest at or below the transaction time hides, as many as the cap allows |
| TailFiles.DroppedAreOlder | internal/database/query.go:488-503 | a tail file that is not taken is older than every one that is |
| TailFiles.TakenUpToCap | internal/database/query.go:488-503 | of a tail over the cap exactly as many files are taken as the cap says, of any other all |
| AsOfCorrect.OrderTakes | internal/database/query.go:468-520 | a query takes exactly those L0 files and every L1 object |
| AsOfCorrect.DurableIsTruthIff | internal/database/query.go:368-600 | in every state that answers, as every reachable one does, at or above the horizon, the durable scan returns the row a scan of the whole history returns exactly when that row is in L1 or in one of the files taken, with the skips on or off |
| AsOfCorrect.FittingReached | internal/database/query.go:488-503 | with a tail under the cap the row is always reached |
| AsOfCorrect.AsOfIsTruth | internal/database/query.go:368-654 | the same with the live rows: the identical row, ties included |
| AsOfCorrect.AnswersSurviveRuns | internal/database/query.go:368-654 | over every run whose compaction reads succeed, when the truth is reached, the query returns a flushed or live row of the entity with system time positive and at most the transaction time and validity around the valid time, none such having a greater system time, and nothing exactly when there is none |
| PartialAnswers.StepKeepsPartial | internal/database/l1_compactor.go:642-812 | with reads that fail or succeed, every action keeps that each L1 object is the pruned merge of some files of the history |
| PartialAnswers.SomeFilesFit | internal/database/query.go:368-600 | any choice of flushed files answers a query with the truth or with something strictly older |
| PartialAnswers.AnswersSurviveFailedReads | internal/database/query.go:368-654 | the same over every run, reads failing or not, whose uploads are harmless |
| Interleaved.InterleavedAnswer | internal/database/query.go:416-654 | with listings of any moments and the files downloaded in any state that answers, if every file of an earlier state's history that is not downloaded from L0 is covered by the listed L1 objects, the answer, live rows included, is no older than the truth of that state and no newer than the truth at the download; so it is the truth when nothing was flushed between |
| Interleaved.InterleavedOverRuns | internal/database/query.go:416-654 | the same between any two states of any run, reads failing or not, whose uploads are harmless |
| Interleaved.AllListedSees | internal/database/query.go:416-510 | a query that listed L0 in the earlier state, and at whatever moment every L1 object of the later one, meets that condition when its tail fits under the cap |
| Interleaved.OvertakenQueryMisses | internal/database/query.go:416-451 | for every file, a compaction and a sweep between the listing of L1 and the listing of L0 make every query of it find nothing |
| RangeQuery.LiveMembers | internal/database/query.go:896-962 | the live merge keeps every durable row, adds only rows of the window and leaves each live row of the window with a twin |
| RangeQuery.LiveDistinct | internal/database/query.go:896-962 | a live row that joins has no twin among the rows before it |
| RangeQuery.SortByStartSorts | internal/database/query.go:967-976 | the output is sorted by start of validity and a permutation |
| RangeQuery.SortByStartStable | internal/database/query.go:967-976 | rows that start together keep their order |
| RangeQuery.WindowExactly | internal/database/query.go:717-962 | without a row cap a window holds every row in L1 or a taken file that is of the entity, at or below the transaction time and overlaps the window; for every such live row one with its system time and digest; and no other row |
| RangeQuery.JoinedHaveNoTwin | internal/database/query.go:896-962 | a live row that joined shares system time and digest with no stored row of the window |
| RangeQuery.InsideIffPoint | internal/database/query.go:1432-1537 | a row with a proper interval overlaps the window exactly when some point query of the window admits it; one without is admitted by none |
| RangeQuery.RangeHoldsAsOf | internal/database/query.go:717-983 | for every valid time of the window at which the point query finds a row the window holds one with its system time and digest |
| RangeQuery.RangeHoldsTruth | internal/database/query.go:717-983 | in every state that answers, at or above the horizon, so for the row a scan of the whole history and of the live rows returns |
| RangeQuery.RangeOverRuns | internal/database/query.go:717-983 | the same over every run, reads failing or not, whose uploads are harmless |
| RangeQuery.ScanWindow | internal/database/query.go:1432-1537 | one file adds its window rows up to the cap and stops exactly when more would exceed it |
| RangeQuery.MergeLive | internal/database/query.go:896-962 | the de-duplicating merge with its seen-set adds exactly the rows without a twin, up to the cap |
| RangeQuery.Range | internal/database/query.go:717-983 | the first cap rows met, sorted; truncated exactly when there were more; nothing exactly when the window is empty or nothing meets it |
| Manifests.BuildManifest | internal/database/l1_compactor.go:975-984 | the text is the keys, a line each |
| Manifests.ParseManifest | internal/database/l1_compactor.go:1052-1080 | the single-pass scan reads the first line that holds something as the L1 key and of the others those under l0/ |
| Manifests.ManifestRoundTrip | internal/database/l1_compactor.go:975-1080 | a manifest of generated names reads back as it was written |
| Manifests.ReadExactly | internal/database/l1_compactor.go:1052-1080 | the first line that holds something is the L1 key, and of the others exactly those under l0/ are the L0 keys, in order |
| Manifests.PaddedContent | internal/database/l1_compactor.go:1052-1080 | lines with blanks around their keys hold the keys |
| Manifests.ScanIsSplitIff | internal/database/manifest_stream_parse_test.go:80-98 | the scan agrees with the split-based reader exactly when the first line is not blank, or the first that is not is an L1 key, or all are blank |
| Manifests.BlankLineMisread | internal/database/l1_compactor.go:1052-1080 | a blank line before an L0 key makes it the L1 key |
| Horizon.Compactor.constructor | internal/database/l1_compactor.go:215-257 | pruning without a positive horizon is switched off and its horizon and floor are zero |
| Horizon.Compactor.EffectiveHorizon | internal/database/l1_compactor.go:314-320 | the candidate is never below the floor |
| Horizon.Compactor.SetInferredHorizon | internal/database/l1_compactor.go:345-363 | the horizon never falls and a retreat is counted |
| Horizon.Compactor.InferHorizon | internal/database/l1_compactor.go:281-299 | one inference raises the horizon to the candidate of the frontier read |
| Horizon.Resolver.ObserveQueryTxTime | internal/database/query.go:285-300 | whatever rivals do between load and swap, the frontier ends as the greatest time seen |
| Horizon.FrontierIsMax | internal/database/query.go:285-310 | in every interleaving, once no query is in the loop the frontier is the greatest time any asked for |
| Horizon.HorizonOverRuns | internal/database/l1_compactor.go:281-363 | in every interleaving with a backoff that is not negative the horizon is the higher of the floor and the frontier last read less the backoff, and no inference is refused |
| Horizon.NothingFalls | internal/database/l1_compactor.go:281-363 | no continuation of a run lowers frontier or horizon |
| Horizon.RefusedIffOverflow | internal/database/l1_compactor.go:345-363 | in every interleaving and with any backoff an inference is refused only when its subtraction overflows, with a floor that is not negative exactly when it does while the horizon is above the floor, and leaves the horizon |
| Horizon.NegativeBackoffRetreats | internal/database/l1_compactor.go:281-363 | a run with backoff -1 whose horizon passes every query and whose last inference is refused |
| Crc32c.OneByteDetected | internal/chaos/wal.go:925-936 | changing one byte of the body changes the CRC-32C |
| WalRecords.EntryRoundTrip | internal/chaos/codec.go:125-173 | the 120-byte entry decodes to what was encoded, legacy reading included |
| WalRecords.MutationRoundTrip | internal/chaos/wal.go:1426-1496 | both mutation payloads decode to what was encoded, whatever follows |
| WalRecords.CheckpointRoundTrip | internal/chaos/wal.go:959-1010 | the newest form of a checkpoint decodes to all of it, the one without a fingerprint to all but that, the oldest to root and watermark |
| WalRecords.CheckpointByLength | internal/chaos/wal.go:1344-1402 | the second form by its length: root, watermark and cut from 48 bytes on, the clock from 56, the fingerprint from 88 |
| WalRecords.FrameRoundTrip | internal/chaos/wal.go:1026-1039 | unwrapping a frame gives the record framed |
| WalRecords.FrameDetects | internal/chaos/wal.go:1026-1039 | changing any byte of a frame's payload makes unwrapping fail as corrupt |
| WalRecords.AppendedDecodes | internal/chaos/wal.go:982-1016 | what an appender frames decodes to the event appended |
| Layouts.BigEndian | internal/chaos/wal.go:925-936 | a 32-bit word, most significant byte first |
| Layouts.LittleEndian | internal/database/memtable.go:176-193 | a 32-bit word, least significant byte first |
| Layouts.EntryLayout | internal/chaos/codec.go:125-147 | the offset of each field of the 120-byte entry |
| Layouts.MutationLayout | internal/chaos/wal.go:942-954 | the offset of each field of a mutation |
| Layouts.CheckpointLayout | internal/chaos/wal.go:959-972 | the offset of each field of a checkpoint and its length by form |
| Layouts.RecordLayout | internal/chaos/wal.go:925-936 | the offset of each field of a record and of the checksummed frame |
| Layouts.MutationKinds | internal/chaos/wal.go:1289-1326 | the record kinds of mutations and advances by number |
| Layouts.CheckpointKinds | internal/chaos/wal.go:1327-1411 | the record kinds of checkpoints by number |
| Layouts.EventLayout | internal/database/memtable.go:165-193 | the offset of each field of the composite key and of the value |
| Layouts.FrameLayout | internal/transport/capnp_server.go:359-402 | the zero word, the little-endian size in words, the segment |
| WalReplay.ReplayWAL | internal/chaos/wal.go:1186-1424 | the loop over arbitrary bytes computes the replay of the parsed records: header, length bound, contiguity and decoding errors in the order of the records |
| WalReplay.ScanRecords | internal/chaos/wal.go:1079-1116 | the scan reports count, next number and end of the whole records of arbitrary bytes |
| WalReplay.CutAtLastGood | internal/chaos/wal.go:1079-1116 | cutting where the scan stops leaves the same records and no torn one |
| WalReplay.RepairKeepsReplay | internal/chaos/wal.go:427-476 | of any file replay accepts, the repaired one replays alike |
| WalReplay.CountsAgree | internal/chaos/wal.go:1079-1116 | on any log replay accepts, scan and replay report the same count and next number |
| WalReplay.SeqIsPosition | internal/chaos/wal.go:1230-1271 | in an accepted log record i carries number i |
| WalPrefixes.OnlyBytePrefixes | internal/chaos/wal.go:1230-1271 | a file rebuilt from the byte ranges of whole records of an accepted log, some left out, repeated or moved, is accepted exactly when it is a byte prefix of the log |
| WalMeaning.AcceptedFile | internal/chaos/wal.go:1186-1424 | of any file replay accepts record i carries number i and decodes, and the result is what those events mean: the mutations and advances under their numbers and in order, and nothing else; the greatest counter, advance or watermark; the last checkpoint, its number and its clock, its own when credible and otherwise the high-water mark up to it; whether a clock was incredible and the greatest that was |
| WalMeaning.MeansUnique | internal/chaos/wal.go:1186-1424 | that meaning leaves one result |
| WalMeaning.ClockCredible | internal/chaos/wal.go:1376-1386 | the final clock is at most the greater of 2^60 and the high-water mark |
| WalMeaning.RefusedFile | internal/chaos/wal.go:1193-1424 | a refused file lacks the header or is refused for its first record at fault: first for its length, then for its number, then for what it holds, and a torn one for its header alone |
| WalLog.WholeIsGreatest | internal/chaos/wal.go:1079-1116 | the number of whole records in a prefix is the greatest whose bytes fit |
| WalLog.CutReplays | internal/chaos/wal.go:1186-1424 | for every list of appended events and every cut at byte 8 or later, replay succeeds with what the longest prefix of whole records means |
| WalLog.RepairCut | internal/chaos/wal.go:427-476 | opening a file cut anywhere leaves the whole records and continues with the next number |
| WalLog.ReopenAppends | internal/chaos/wal.go:427-476 | reopening at any cut and appending more replays as the whole records before the cut and then the new ones |
| WalLog.ReplaysIffBounded | internal/chaos/wal.go:69-69 | a written log replays exactly when every entity id is short enough for the payload bound |
| WalLog.BoundedIsShortId | internal/chaos/wal.go:982-988 | the bound on payloads is a bound on the entity id alone |
| WalLog.MixedReplaysAsBare | internal/chaos/wal.go:1026-1039 | any mix of bare and framed records replays like the same records all bare, errors included |
| WalLog.CorruptionDetected | internal/chaos/wal.go:1026-1039 | a changed byte in the payload of any record makes replay refuse the log as corrupt |
| WalProtocol.StepKeeps | internal/chaos/wal.go:511-749 | each step of an appender, a sync, a crash or a reopening keeps the invariant of file, numbers and appends |
| WalProtocol.AckedRecovered | internal/chaos/wal.go:511-728 | in every interleaving across any number of crashes and reopenings, whatever a crash now leaves replays, and every mutation and advance of every append that returned success is handed back under its own number; the appends stand whole, once and in the order of the mutex, and the next number is past all records |
| WalProtocol.AckedStays | internal/chaos/wal.go:511-728 | an append that returned success is never forgotten by a longer run |
| WalProtocol.PartialWriteHides | internal/chaos/wal.go:530-533 | a failed write that left a header would hide later appends from replay |
| WalWriter.EncodeEntry | internal/chaos/codec.go:125-147 | the fields written in place are the entry's bytes and nothing around them changes |
| WalWriter.PutMutation | internal/chaos/wal.go:942-954 | the mutation payload written in place |
| WalWriter.PutCheckpoint | internal/chaos/wal.go:959-972 | the checkpoint payload written in place, in each of its forms |
| WalWriter.Encode | internal/chaos/wal.go:925-936 | one buffer filled by offset is the framed record with the checksum of its body |
| WalWriter.Writer.OpenWAL | internal/chaos/wal.go:427-476 | refuses exactly the non-empty files without the header; otherwise the file ends after its last whole record and the next number is the scan's |
| WalWriter.Writer.AppendMutation | internal/chaos/wal.go:511-554 | the number is consumed exactly when the bytes are in the file, whatever the sync does; success needs validity, an open log, the write and the sync |
| WalWriter.Writer.AppendMutations | internal/chaos/wal.go:625-667 | the records before the first refused or failed one are in the file and numbered, the index of that one is returned, success only for the whole batch and its sync |
| WalWriter.Writer.AppendCheckpoint | internal/chaos/wal.go:672-696 | as AppendMutation, without a validity test |
| WalWriter.Writer.AppendClockAdvance | internal/chaos/wal.go:702-728 | as AppendMutation, without a validity test |
| WalWriter.RecordsAreLog | internal/chaos/wal.go:625-667 | the bytes of a batch are consecutive records of a log |
| WalWriter.AppendTakesSteps | internal/chaos/wal.go:625-667 | the bytes and numbers of a batch are those of the protocol's lock and write steps |
| SkipOrder.BelowIsAll | internal/database/skiplist_arena.go:401-410 | in sorted keys the front below a target is all that is below it |
| SkipLinks.Descend | internal/database/skiplist_arena.go:361-377 | where a level's search stopped the level below can go on, never past its own stop |
| SkipLinks.LevelsAfter | internal/database/skiplist_arena.go:239-262 | a new node joins exactly the levels it reaches, at their stops |
| SkipLinks.SpliceStep | internal/database/skiplist_arena.go:267-275 | linking a node on one level makes that level the longer one and leaves all others |
| SkipMemory.LinkHolds | internal/database/skiplist_arena.go:121-132 | a link written into the byte array changes that link of that node and nothing else |
| SkipMemory.NodeJoins | internal/database/skiplist_arena.go:148-197 | a slot and data written between the regions read back as the new node, and every earlier node is byte for byte unchanged |
| SkipArena.GuardExactIff | internal/database/skiplist_arena.go:153-155 | the 32-bit test for room says what it means exactly for buffers shorter than four gibibytes less a slot |
| SkipArena.SkipListArena.constructor | internal/database/skiplist_arena.go:58-81 | a new list is empty and has the invariant |
| SkipArena.SkipListArena.Reserve | internal/database/skiplist_arena.go:148-178 | room is given exactly when slot and data fit between the regions; a slot taken in vain is not given back |
| SkipArena.SkipListArena.Put | internal/database/skiplist_arena.go:209-297 | an insertion succeeds exactly when there is room, adds the entry before the first not below it and keeps sorted levels, each a sublist of the one below; a failed one changes no entry |
| SkipArena.SkipListArena.Seek | internal/database/skiplist_arena.go:361-391 | the descent returns the first node not below the target |
| SkipArena.SkipListArena.SeekLowerBoundLinear | internal/database/skiplist_arena.go:401-410 | the walk along the lowest level returns the same node |
| SkipArena.SkipListArena.Drain | internal/database/skiplist_arena.go:428-466 | iteration yields the entries in order |
| SkipArena.PutAllSorts | internal/database/skiplist_arena.go:209-297 | after any insertions the entries are in key order and are those put, each as often |
| Packing.PackRoundTrip | internal/database/memtable.go:165-193 | key and value unpack to the event packed |
| Packing.KeysInOrder | internal/database/memtable.go:165-169 | byte order of keys is hash order, then order of the unsigned system, valid and assertion times |
| MemTable.PreflightIffFits | internal/database/memtable.go:155-158 | an event passes the size test exactly when it fits an arena that holds nothing |
| MemTable.MemTable.SwapAndFlushAsync | internal/database/memtable.go:298-335 | an arena with entries is handed over once and replaced, or nothing changes |
| MemTable.MemTable.Write | internal/database/memtable.go:109-288 | a write succeeds exactly when it is accepted, the table is open, and the active arena takes it or a flush may start; then its sanitised entry is stored once more, otherwise nothing |
| MemTable.MemTable.Close | internal/database/memtable.go:513-533 | afterwards every entry ever written has been handed to the flusher |
| MemTableProtocol.StepKeeps | internal/database/memtable.go:204-335 | each step of writers, swaps, background flushes and any number of flush and close calls keeps the invariant of locks, arenas, calls and log |
| MemTableProtocol.NoFrozenWrites | internal/database/memtable.go:204-273 | in every interleaving a put goes into an arena that has not been handed over |
| MemTableProtocol.HandedOnceAtClose | internal/database/memtable.go:450-533 | in every interleaving, once any close has taken what was left, each write that returned nil was put once and its arena was handed over once |
| MemTableProtocol.FlushedAtCloseIff | internal/database/memtable.go:513-533 | in every interleaving, when a close has returned nil everything written has been flushed exactly when no other call of flush or close is uploading, and kept exactly when besides no flush failed |
| MemTableProtocol.CloseReturnsEarly | internal/database/memtable.go:450-533 | a run in which close returns while another call of flush or close is uploading a written row |
| Flusher.GroupsKeepRows | internal/database/l0_flusher.go:141-268 | the partitions hold all rows in order |
| Flusher.GroupsAreEntities | internal/database/l0_flusher.go:141-268 | a partition is not empty, holds one entity hash and is named after its first row |
| Flusher.RowsInOrder | internal/database/l0_flusher.go:204-268 | rows unpacked from sorted entries are in order of hash and then in the order a merge sorts by |
| Flusher.GroupsRise | internal/database/l0_flusher.go:223-237 | sorted rows give one partition per hash |
| Flusher.FirstIsMinIff | internal/database/l0_flusher.go:223-237 | the time in the name is the least in the file exactly when the times are of one sign |
| Flusher.FlushedFileOkIff | internal/database/l0_flusher.go:141-268 | a flushed partition is a file as the directory's state machine takes it, sorted by system, valid and assertion time, exactly when its rows carry the one entity id and positive times and its name has the directory's width |
| FlushedRows.FilesHoldEvents | internal/database/l0_flusher.go:204-268 | the files of a flush hold exactly the written events that are not pruned, each once and in order, every column the event's own and the file that of its hash |
| FlushedRows.EventInFile | internal/database/l0_flusher.go:204-268 | an event that was written and is not pruned has a row in the file of its hash with all its fields |
| FlushedRows.CarriedVisible | internal/database/query.go:1306-1343 | a query sees that row exactly when its id, transaction time and valid time admit the event |
| Flusher.NamesApart | internal/database/l0_flusher.go:313-323 | partitions share a name only when they share the first half of their hashes and their first time |
| Flusher.NameBoundsRows | internal/database/l0_flusher.go:313-323 | a number read back from the name is at most the system time of every row that is not negative |
| Flusher.FlushArenaToIPC | internal/database/l0_flusher.go:141-268 | the pass emits exactly those partitions, and those before a failing emission |
| Transport.ParseInTwo | internal/transport/capnp_server.go:373-447 | parsing what has arrived and then the rest with what follows is parsing the whole |
| Transport.BadStays | internal/transport/capnp_server.go:380-402 | after a header that closes the connection nothing more is handed on |
| Transport.StreamParses | internal/transport/capnp_server.go:359-372 | a stream of single-segment frames parses to its segments, whatever is cut off after them |
| Transport.Connection.AdvanceBuffer | internal/transport/capnp_server.go:452-458 | the overlapping move leaves exactly the unconsumed bytes at the front |
| Transport.Connection.ParseMessages | internal/transport/capnp_server.go:373-447 | hands on the messages of the buffer's bytes and leaves their rest |
| Transport.Connection.EnsureRoom | internal/transport/capnp_server.go:313-328 | a full buffer doubles with its contents, or closes the connection exactly when twice its size exceeds the limit; the size the doublings end at stays the same |
| Transport.OverlongRest | internal/transport/capnp_server.go:305-356 | whether a stream has a frame too long for the buffer does not depend on where its bytes are cut into reads |
| Transport.Connection.HandleRead | internal/transport/capnp_server.go:305-356 | for reads of any sizes the messages are those of the stream and the buffer holds the unconsumed suffix; growth closes the connection exactly when, before any bad header, a frame is longer than the size the doublings end at and that many of its bytes arrive, after all frames before it were handed on |
| Transport.HalfNotOverlong | internal/transport/capnp_server.go:313-328 | whatever the allocator rounds up, frames up to 32 MiB never trip the growth limit |
| Transport.LargestFrameCloses | internal/transport/capnp_server.go:305-402 | without rounding, a frame whose segment has the full limit closes the connection once as many bytes as the limit have arrived, after any smaller ones were handed on |
| Transport.SmallerFramesPass | internal/transport/capnp_server.go:305-402 | without rounding, any stream of smaller frames is handed on whole and the connection stays open |
| Pii.FindFirstPIIRun | internal/crypto/pii.go:186-203 | the counting scan finds the first twelve-digit run, or none exactly when there is none |
| Pii.CountRuns | internal/crypto/pii.go:112-124 | counts the runs the greedy rewriting replaces |
| Pii.WriteHex16 | internal/crypto/pii.go:233-238 | sixteen lower-case hexadecimal digits, most significant first |
| Pii.HexSpells | internal/crypto/pii.go:233-238 | read as a hexadecimal number they are the digest's low 64 bits |
| Pii.MaskAssemble | internal/crypto/pii.go:145-179 | fills the pre-sized buffer exactly with the greedy rewriting |
| Pii.MaskPII | internal/crypto/pii.go:94-138 | the three passes agree with the greedy rewriting; a buffer is made exactly when there is a run |
| Pii.MaskUnchangedIff | internal/crypto/pii.go:94-108 | the result is the input exactly when there is no run |
| Pii.MaskIsPiecewise | internal/crypto/pii.go:145-179 | the output is the input's literal segments, none holding a run, with each run between them replaced |
| Pii.DigestCanShowRun | internal/crypto/pii.go:162-165 | a digest of decimal digits puts a run into the result |
| Pii.MaskRunFreeIff | internal/crypto/pii.go:145-179 | the result holds no run exactly when no digest, with the literal after it, brings one |

## Left out

- The CRDT engine, HAMT, Merkle tree, gossip, receiver and recovery bridge: live rows are a given list.
- Supervisor, virtual network, orchestrator, ring and epoch batcher, HTTP, TLS, S3, Postgres, provisioning: process and network plumbing.
- SHA-256 and xxhash are parameters; Arrow files are sequences of rows; the height of a skip-list node is a parameter.
- Telemetry and logging; tombstone pruning is a set of entity ids the flusher is given.
- Concurrent splicing in the skip list: an insertion is one step, so the retry after a failed compare-and-swap and the fallback of Seek are never needed.
- Several entities in one directory: a directory belongs to one entity, so no two entities share an eight-byte hash prefix; times in names are positive and of one decimal width in the state machine, and each entity's files arrive in increasing, disjoint time ranges.
- Listings that race with a running compaction: a listing is one step; so are the downloads of one query, which may come later than its listings in `Interleaved` alone.
- StoreSafety.NothingLost: assumes that compaction reads succeed; for runs in which they fail see FailedReads.HarmlessIff.
- AsOfCorrect.AnswersSurviveRuns: assumes that compaction reads succeed and, as AsOfIsTruth does, that the true row is reached; for runs in which reads fail see PartialAnswers.AnswersSurviveFailedReads.
- Interleaved.InterleavedAnswer: the condition is on the history; a single query that breaks it may still find its answer.
- AsOfCorrect.AsOfIsTruth: assumes that the true row is in L1 or in a file the cap lets the query take; without that AsOfCorrect.DurableIsTruthIff says it is missed.
- WalProtocol.AckedRecovered: a crash leaves a prefix of the file no shorter than what was synced, a failed write leaves no bytes, payloads are within the 4 MiB that replay accepts, the header is durable before the first append and sequence numbers do not wrap; the durability of the truncation when a log is opened is not modelled.
- WalWriter.Writer.AppendMutations: an entity id is short enough for the 32-bit length field.
- Manifests.ParseManifest: trims ASCII white space only.
- MemTable.MemTable.Write: UTF-8 validity of the entity id and the semaphore are inputs; upload retries and disk fallback are not modelled.
- MemTableProtocol.FlushedAtCloseIff: whether a flush keeps every partition is an input, and the quota test may be repeated, which allows more runs than the code has; freeing arenas is not modelled.
- Flusher.FlushArenaToIPC: entries are those the memtable packed, so every announced field is present.
- Transport.Connection.HandleRead: what follows the closing of a connection and the decoding of a segment into an event are not modelled.
