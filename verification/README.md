# Crash-safe metric store: model and proofs

This project models the storage engine of the repository and the smaller state machines beside it, and proves what they
promise over whole runs.

The engine keeps samples in three places: a write-ahead log of segment files, an in-memory head, and immutable blocks in
directories. `Wal`, `MemStores` and `FSStores` follow the Go types method by method and change the same fields. Their
effects go through `Disks.Disk`, whose methods are single system calls, or an `os.RemoveAll` that may be caught half-way;
it remembers every state it has been in. A block directory is its two files, meta.json and data.json, either of which may
be missing or unreadable, so a directory that is written over older data can be read as new metadata with old data.

Beside them `Engine` is the store as a state machine whose steps are single disk or memory effects, so that a crash may
fall between any two of them: inside `Commit`, between the two halves of a segment rotation, inside `FlushHead` (some
files of the block written, block written but head not cleared, head cleared but log not truncated), inside `compact`,
inside the age pass, while directories are being removed, or after any byte of a record. Commits go on beside compaction
and retention, as they do beside the compaction goroutine, and beside each other: any number of batches may be logged and
wait for the head, and be applied in any order. Every method of `FSStores.FSStore` has its whole effect stated for any store. When what
it is called on stands at the end of a legal run and the call is safe, it is proved to continue that run, and the disk is
proved to go, during the call, only through states of the run (`Calls.CallPassed`). So the theorems about runs hold at
every system call of every method. What makes a call safe is a condition on the state before it: that the records fit the
log's fields (`AllFit`) and the log does not end in a bare header (`CleanTail`), that a flush does not overwrite a block
whose points the head lacks (`FlushDirSafe`), that a compaction does not target one of its sources and label hashes do not
collide (`CompactionSafe`), that blocks sharing a directory expire together (`ExpireTogether`) and hold nothing later than
their range says (`ExpireWhole`). `Hazards` says what is lost otherwise, and shows runs that get there.

Whether metadata bounds the samples, on which queries rely when they skip blocks, is kept apart from that: the store's
methods keep `AllCovered` whether or not they are safe, and `Coverage.CoveredOverRuns` says exactly which runs keep every
directory covered at every moment.

The main theorems about recovery speak of the events of a run and of the disk, not of the machine's own bookkeeping.
`Recovery.Due` computes from the list of events alone what a run owes its readers: the batches whose commit returned, what
had reached the log of the others when a process died, and what has reached it of those under way.
`Recovery.DurableOverRuns` compares that with what the disk holds.

| module | content |
|---|---|
| Types, Digits, Sorting | values, positional notation, `sort.Slice` as some sorted permutation |
| Codec, SegmentNames, Wal, WalLaws | record format, file names, the segmented log and its laws |
| Heads, MemStores | the head as a plain map, and the hashed buckets that refine it |
| Blocks, Compaction, CompactionLaws, Retention | blocks, merging, deduplication, expiry |
| Disks, Engine, EngineLaws, Durability, Recovery | the store as a machine, and what every run of it keeps |
| Coverage | when the metadata of every directory bounds its samples, over runs |
| EngineRuns, Calls, FSStores | the store's methods, each a run of the machine |
| Hazards | unsafe flushes, expiries and compactions: what is lost, and exactly when |
| Interleaving | concurrent commits, and a commit inside a flush |
| TopN, Sessions, SessionLaws | the session event store over whole runs |
| Deltas, Histograms | delta accumulation with eviction, histogram conversion |
| Remote | the remote appenders against an arbitrary script of responses |

Bytes are numbers below 256 and Go strings are sequences of them. A sample value is the 64-bit pattern of its float, except
where values are added; there it is a real number. The JSON encoder refuses NaN and infinities, so a flush of a head that
holds one fails. The label hash is an arbitrary function, clocks and responses are
arbitrary inputs.

## What the proofs found

Several promises hold only under a condition. Each is stated as an equivalence or comes with a run that breaks it.

* A record survives the log exactly when no length is cut off by its field (`Codec.RoundTripIffFits`).
* A log cut exactly 4 bytes into a record opens without an error. What is logged next survives the next restart exactly
  when the cut was at a record boundary instead, or the record is one of the few whose bytes, read one header too early,
  give the record itself (`Codec.AppendableIffWhole`, `Codec.SelfReading`, `WalLaws.LogAfterTornTail`). After a bare
  header any other record makes the log unreadable, or is read as a phantom sample without labels and is itself lost
  without an error (`Codec.HeaderTailPoisonsLog`).
* A process that dies inside the write of a record is followed by one that starts exactly when none of the record or just
  its header was written (`Recovery.StartsAgainIff`, `Recovery.TornCommit`).
* A segment stays below the limit plus its last record, at every moment of a run, exactly when no process dies between
  filling a segment and rotating it (`WalLaws.SegmentsOverRuns`, `WalLaws.DeathIsSegmentedIff`).
* Sorting segment names sorts sequence numbers exactly as long as all names have the same width
  (`SegmentNames.SortedListingIffSameWidth`); the first failure is between 99999999 and 100000000.
* Pruning is filtering by time exactly when a series is split at the cutoff (`Heads.PruneIsFilterIffSplit`).
* A flush may go into the directory of an earlier block. The disk still holds all that is due exactly when everything
  that was overwritten is in the head, in the current segment or in another directory (`Hazards.FlushKeepsDueIff`,
  `Hazards.FlushIsDurableIff`). It is after a restart without a rotation (`Hazards.RestartBetweenFlushes`), and it is not
  after one with a rotation (`Hazards.OverwriteLosesPoint`). A flush that fails because of a NaN empties the directory all
  the same (`Hazards.FailedFlushKeepsDueIff`).
* A flush fails exactly when some value of the head has the exponent field of NaN and the infinities, as the marker of a
  stale series has (`Blocks.FiniteIff`, `Blocks.FiniteExamples`). Head and log stay, so the next flush fails again.
* The age pass keeps the directories of the blocks it keeps exactly when blocks that share a directory expire together
  (`Hazards.AgePassKeepsBlocksIff`). It keeps what is due and not expired exactly when everything unexpired in the
  directory of an expired block is elsewhere, too (`Hazards.AgePassKeepsDueIff`). A commit, a flush, the same point again
  with a later one, and a flush get to a store where it does not (`Hazards.AgePassLosesPoint`).
* Every directory that can be read has metadata that bounds its samples, at every moment, exactly when each meta.json that
  was written before older data bounded that data (`Coverage.CoveredOverRuns`).
* Compaction keeps what the blocks on disk held exactly when its target is none of its sources
  (`Hazards.CompactionSurvivesIff`). If the first block of the list had the least time, which is how a restart builds the
  list, the next compaction does target its own source (`Hazards.NextCompactionHitsItsSource`) and leaves no block on disk
  (`Hazards.RecompactionEmptiesDisk`); with every record filling a segment nothing at all can be recovered
  (`Hazards.RecompactionLosesAll`).
* Compaction keeps every series exactly when no two label sets collide
  (`CompactionLaws.MergeKeepsLabelsIffNoCollision`).
* A batch committed between the two halves of a flush stays visible exactly when it was visible before
  (`Interleaving.CommitInsideFlushIsVisibleIff`). A new one cannot be seen until the next restart, which brings it back
  exactly when it ended below the limit of the segment (`Hazards.CommitInsideFlush`, `Interleaving.LateBatchStaysIff`).
* Two concurrent commits can be replayed in the other order (`Interleaving.OrderCanDiffer`); a series keeps its order when
  the batches touching it are applied in log order (`Interleaving.SeriesOrderIsKept`).
* Event keys order the times from 1970 to 2262, which is as far as Go defines the conversion; the 64-bit value that is
  encoded would order times up to 2554. Times before 1970 sort after all of 1970 to 2262
  (`SessionLaws.BeforeEpochSortsLast`), so two keys are ordered as their times exactly when both are on one side of 1970
  (`SessionLaws.KeysOrderTimesIff`). A bucket holds the N latest times exactly when all are on one side, or there are no
  more than N (`SessionLaws.HoldsLatestIff`); with N = 1, an event before 1970 evicts the latest one
  (`SessionLaws.EarlierEvictsLatest`).
* A session file opened with another bound holds the N latest events for every history exactly when each bound so far let
  in all events up to then or as many as the last bound does (`SessionLaws.RoomyIff`).
* A remote commit delivers every batch exactly when no response is fatal and no MaxRetries responses in a row are
  retryable (`Remote.DeliveredIff`). Nil may be returned with nothing delivered (`Remote.ServerErrorsDropEverything`).
* The +Inf bucket of an exponential histogram misses the negative observations that its count includes
  (`Histograms.ExponentialBuckets`).

## Model

| member | source | states |
|---|---|---|
| Codec.EncodeWALRecord | internal/store/wal.go:211-229 | the bytes built in the loop are the record's format: counts and lengths big-endian and cut to their widths |
| Codec.Layout | internal/store/wal.go:211-229 | where size, number of labels, labels, time and value stand in the bytes of a record, with the digits of the numbers and the time in two's complement |
| Codec.LabelLayout | internal/store/wal.go:214-222 | each label is the length of its name, its name, the length of its value, its value |
| Codec.BytesOf | internal/store/wal.go:211-229 | the big-endian digits of two, four and eight bytes |
| Codec.DecodeWALRecord | internal/store/wal.go:249-278 | reading at the front of a file ends in EOF, unexpected EOF, an index panic or a record with the remaining bytes, as a header-only tail, a short body and a bad length have it |
| Codec.DecodeData | internal/store/wal.go:258-277 | the loop over offsets decodes what the recursive decoder decodes, and panics where it has no result |
| Codec.ReplaySegment | internal/store/wal.go:231-247 | the callbacks made and the way the loop ends are the replay of the file |
| Codec.RecordRoundTrip | internal/store/wal.go:211-278 | decoding an encoded record with anything after it gives back the record and the rest |
| Codec.RoundTripIffFits | internal/store/wal.go:217-227 | a record can be read back exactly when label count, string lengths and size fit their fields |
| Codec.ReplayAll | internal/store/wal.go:231-247 | replaying the encodings of any list of records delivers the list and ends with nil |
| Codec.TornReplay | internal/store/wal.go:231-278 | any byte prefix of a log delivers exactly the records wholly inside it, and ends with nil exactly at a record boundary or 4 bytes past one |
| Codec.HeaderTailPoisonsLog | internal/store/wal.go:249-256 | what a log delivers when a record follows a bare header: an error if it is shorter than the missing body, else whatever its bytes, header and all, decode to; with a body below 64 KiB that is a phantom without labels, and if it is as long as the missing body, the phantom alone, with nil unless its last four bytes are zero |
| Codec.AppendableIffWhole | internal/store/wal.go:231-278 | a log that opens can be appended to, so that old and new records are replayed, exactly when it does not end in a bare header or the record reads as itself there; none does that has labels and a body below 64 KiB |
| Codec.SelfReading | internal/store/wal.go:231-278 | a record that reads as itself after a bare header |
| SegmentNames.NameRoundTrip | internal/store/wal.go:203-209 | parsing the name printed for any sequence number gives the number |
| SegmentNames.EightDigits | internal/store/wal.go:160-162 | below 10^8 a name is eight decimal digits in ASCII, most significant first |
| SegmentNames.NamesSortAsNumbers | internal/store/wal.go:160-162 | below 10^8 names sort as numbers |
| SegmentNames.WidthBoundary | internal/store/wal.go:160-162 | at the end of a width the last name sorts after its successor |
| SegmentNames.SortedListingIffSameWidth | internal/store/wal.go:185-201 | name order is number order on a whole range exactly when its ends have the same width |
| Wal.WAL.constructor | internal/store/wal.go:31-53 | opens the newest segment, creating it when there is none, with the size it has on disk |
| Wal.WAL.LatestSegmentSeq | internal/store/wal.go:164-183 | the greatest number among the segment files, or zero |
| Wal.WAL.Log | internal/store/wal.go:65-82 | the files, segment number and size after logging a batch, and every state of the directory on the way |
| Wal.WAL.LogRecord | internal/store/wal.go:68-80 | one record is written to the open segment and only then, if that reached the limit, a new segment is created |
| Wal.WAL.RotateSegment | internal/store/wal.go:143-158 | the next segment is open, empty, and everything older is as it was |
| Wal.WAL.Truncate | internal/store/wal.go:99-121 | exactly the segments below the number are gone, removed one by one |
| Wal.WAL.ListSegments | internal/store/wal.go:185-201 | every segment whose name parses, once, sorted by name |
| Wal.WAL.Replay | internal/store/wal.go:85-96 | the callbacks are the replay of the segments in name order up to the first one that fails; with names of one width that is sequence order |
| Wal.WAL.ReplayPaths | internal/store/wal.go:90-95 | the loop over paths delivers the replay of those files in that order |
| Wal.ListingAscends | internal/store/wal.go:185-201 | a listing sorted by names of one width is the ascending list of the segments present |
| WalLaws.LogOneAppends | internal/store/wal.go:65-82 | logging a record appends it to the log and keeps every closed segment at or over the limit and under it without its last record, the open one below it |
| WalLaws.LogAllAppends | internal/store/wal.go:65-82 | logging a batch appends it in order, splits no record between segments, and keeps the segment invariant |
| WalLaws.TruncateDropsPrefix | internal/store/wal.go:99-121 | what truncation removes from the log is exactly the records of the older segments |
| WalLaws.TruncateKeepsSegmented | internal/store/wal.go:99-121 | the segment invariant survives truncation exactly when the open segment does |
| WalLaws.ReopenIsIdentity | internal/store/wal.go:31-53 | reopening a log left between two records changes nothing, whether or not the segment was full |
| WalLaws.ReplayDelivers | internal/store/wal.go:85-96 | replay delivers every record of every segment in order and ends with nil |
| WalLaws.TornLogReplay | internal/store/wal.go:85-96 | a log of whole records whose open segment is cut anywhere delivers all older records and the whole ones of the tail, and opens exactly when the cut is at a boundary or 4 bytes past one |
| WalLaws.LogAfterTornTail | internal/store/wal.go:31-96 | reopening a log that was cut but opens, and logging any record that fits, leaves a log that replays all of it exactly when the cut was at a boundary or the record reads as itself after the header |
| WalLaws.EmptyIsSegmented | internal/store/wal.go:31-53 | the log that is opened on an empty directory satisfies the segment invariant |
| WalLaws.LogOverRuns | internal/store/wal.go:31-158 | over every run of Log, Truncate, restarts and deaths between records: whole records in every segment, the newest open with its size known, every closed one at least the limit, and the log is what was logged but for a truncated front |
| WalLaws.SegmentsOverRuns | internal/store/wal.go:31-158 | at every moment of a run every closed segment is below the limit without its last record and the open one below it, if and only if no process died with a full segment unrotated, reckoned from the lengths of the records |
| WalLaws.StaysInSegmentIff | internal/store/wal.go:65-82 | logging a batch leaves the segment open exactly when it is empty or ends below the limit |
| WalLaws.DeathIsSegmentedIff | internal/store/wal.go:68-80 | after a death between write and rotation the reopened log satisfies the invariant exactly when the size before the write and the length of the record are below the limit |
| Types.MatchesAll | internal/store/memstore.go:226-233 | on a label set, true exactly when each matcher accepts the value of every label of its name, and the empty string when there is none |
| Types.LabelValue | internal/store/memstore.go:226-233 | the value of the first label of that name, empty when there is none |
| Types.EqualityMatches | internal/store/memstore.go:226-233 | a matcher that asks for one value of a name accepts exactly the label sets that hold this label |
| Types.WindowConcat | internal/store/memstore.go:235-243 | the samples inside the window keep their order |
| Types.FilterSamples | internal/store/memstore.go:235-243 | exactly the samples from mint to maxt, in order |
| Types.HasOverlap | internal/store/memstore.go:245-252 | true exactly when some sample lies from mint to maxt |
| MemStores.MemStore.FindSeries | internal/store/memstore.go:217-224 | finds the series of a label set in a bucket, or shows that it is not there |
| MemStores.MemStore.FindOrCreate | internal/store/memstore.go:154-162 | the series of a label set, existing or fresh and empty, with bucket and reference invariants kept for any hash |
| MemStores.MemStore.AppendSample | internal/store/memstore.go:154-163 | the plain map gains one sample at the end of its label set |
| MemStores.MemStore.AppendSamples | internal/store/memstore.go:151-165 | committing a batch is appending its samples in order to a map from label sets to samples, for any hash, even a constant one |
| MemStores.MemStore.Select | internal/store/memstore.go:46-68 | exactly each matching label set with a sample in the window, once, with its samples in the window in order; with one equality matcher, exactly the samples in the window of the series that hold this label |
| MemStores.MemStore.LabelNames | internal/store/memstore.go:71-94 | strictly ascending, a name is listed exactly when a label of a selected label set has it |
| MemStores.SortedNames | internal/store/memstore.go:88-93 | every name of the set once, strictly ascending |
| MemStores.MemStore.PruneSamples | internal/store/memstore.go:254-262 | the binary search as it runs, sorted samples or not; of sorted samples what is before the cutoff goes and the rest stays |
| MemStores.MemStore.TrimBucket | internal/store/memstore.go:135-142 | deleting from the back in place keeps exactly the series with samples left, each trimmed |
| MemStores.MemStore.StoreBucket | internal/store/memstore.go:143-147 | the bucket or its key is replaced, the index loses exactly the emptied series |
| MemStores.MemStore.PruneBucket | internal/store/memstore.go:135-148 | one bucket is pruned, every other one is as it was |
| MemStores.MemStore.PruneBefore | internal/store/memstore.go:133-148 | every series is trimmed, exactly the emptied ones are gone, and the index invariant holds |
| MemStores.MemStore.Prune | internal/store/memstore.go:128-149 | nothing happens when the retention is zero; otherwise the head is pruned at the millisecond in which now minus the retention lies |
| Heads.AppendAllPerSeries | internal/store/memstore.go:151-165 | appending a batch extends each series by its own samples of the batch, in order |
| Heads.SelectedIff | internal/store/memstore.go:46-68 | a series is selected exactly when the matchers accept its labels and one of its samples lies in the window |
| Heads.NamesOfSelection | internal/store/memstore.go:71-94 | a name is listed exactly when a label of a selected series has it |
| Heads.PruneIsFilterIffSplit | internal/store/memstore.go:254-262 | trimming keeps exactly the samples from the cutoff on if and only if no early sample follows a late one |
| Heads.PruneSortedHead | internal/store/memstore.go:128-149 | on time-sorted series pruning keeps exactly the samples from the cutoff on and the series that have one |
| Blocks.SelectSeries | internal/store/block.go:108-126 | the matching series with their samples in the window, those with none left out; a point is among them exactly when it is in the block, the matchers accept its labels, and it lies in the window |
| Blocks.SelectOne | internal/store/block.go:108-126 | what one series contributes: nothing, or itself with its samples in the window |
| Blocks.SelectedPoints | internal/store/block.go:108-126 | a point is selected exactly when it is in a series, matches and lies in the window |
| Blocks.SkippingIsSound | internal/store/fsstore.go:92-95 | a block whose range misses the window would have contributed nothing |
| Compaction.Dedup | internal/store/block.go:163-174 | in place, the first sample of each run of equal times |
| Compaction.DedupKeepsFirsts | internal/store/block.go:163-174 | what is kept are, in order, exactly the samples with no equal time just before them |
| Compaction.DedupIncreasing | internal/store/block.go:163-174 | on sorted samples the result is strictly increasing in time |
| Compaction.DedupTimes | internal/store/block.go:163-174 | no time is lost and none is added |
| Compaction.Thin | internal/store/block.go:154-157 | sorted and deduplicated: strictly increasing, from the input, with every input time |
| Compaction.GroupSeries | internal/store/block.go:130-151 | the group of each hash, and the least and greatest times of the blocks |
| Compaction.AbsorbAllGroups | internal/store/block.go:141-150 | each group holds exactly the samples of the label set it was opened with |
| Compaction.MergeGroups | internal/store/block.go:152-159 | one series for each hash, merged from its label set, in some map order |
| Compaction.CompactBlocks | internal/store/block.go:129-161 | the result is a merge of all series with the merged bounds, whatever the hash |
| Compaction.SampleCounts | internal/store/block.go:37-41 | the number of samples in the metadata counts the samples of all series |
| CompactionLaws.MergeInventsNothing | internal/store/block.go:129-161 | every merged sample comes from an input with the same labels |
| CompactionLaws.MergeKeepsLabelsIffNoCollision | internal/store/block.go:143-149 | all label sets are kept if and only if no two of them share a hash |
| CompactionLaws.MergeKeepsKeys | internal/store/block.go:129-161 | without collision every label set and time of the inputs is in the merge |
| CompactionLaws.MergeIsExact | internal/store/block.go:129-161 | if moreover each label set has one value per time, the points are the same |
| CompactionLaws.MergeIsSingleValued | internal/store/block.go:154-157 | the merge has one value for each label set and time |
| CompactionLaws.MergeIsExactIff | internal/store/block.go:129-161 | for inputs without empty series the points are the same if and only if no label sets collide and values are unique per time |
| CompactionLaws.MergeIsCovered | internal/store/block.go:133-140 | the merged bounds cover every merged sample |
| CompactionLaws.CompactionPreservesQueries | internal/store/fsstore.go:275-294 | for every window and matchers, a query on the merged block and on its sources selects the same points |
| Coverage.CoveredOverRuns | internal/store/fsstore.go:184-294 | over every run: at every moment the metadata of each readable directory bounds its samples if and only if each meta.json written before older data bounded that data; then the listed blocks are covered, too |
| Coverage.StageGoodIff | internal/store/block.go:41-60 | of the stages of writing a covered block only the one that puts new metadata before older data can leave a directory whose metadata does not bound its samples, and it does exactly when that data lies outside |
| Coverage.CoveredExpireWhole | internal/store/fsstore.go:303-308 | covered blocks whose range ends before the cutoff hold only earlier samples |
| Durability.StepKeeps | internal/store/fsstore.go:211-347 | every effect of every method, every death between effects or inside the write of a record, and every restart keeps the engine's invariant |
| Durability.RunKeeps | internal/store/fsstore.go:211-347 | every legal run keeps it |
| Recovery.DurableOverRuns | internal/store/fsstore.go:184-347 | at every point of every run, with any commits beside each other and beside compaction and retention, over older data in any directory, and with deaths after any byte of a record, the disk holds only points that are due, and every label set and time that is due from the retention horizon on; exactly the due points when nothing was merged or expired, or when values are unique per time and nothing expired |
| Recovery.EveryMomentIsSafe | internal/store/fsstore.go:211-347 | the same for each state of the disk inside a call: nothing recoverable that is not due after the call, everything that was due before it |
| Recovery.DueGrows | internal/store/fsstore.go:338-347 | what is due stays due through every further event, and the horizon only moves forward |
| Recovery.QueriesSeeWhatReturned | internal/store/fsstore.go:85-106 | at every moment while a process runs, queries see only points whose commit returned or that a restart brought back, and every label set and time of them from the horizon on |
| Recovery.QueriesSeeWhatIsDue | internal/store/fsstore.go:85-106 | when no commit is under way, also during a compaction or an age pass, head and block list show what the disk promises |
| Recovery.ReopenShowsDisk | internal/store/fsstore.go:41-77 | after a restart head and blocks show exactly what the disk held |
| Recovery.ReopenReplays | internal/store/wal.go:85-96 | the newest segment opened, the replay ends with nil exactly when that of every segment does, and then delivers all records in order |
| Recovery.ReopenRecovers | internal/store/fsstore.go:41-77 | after any run whose process has died anywhere, a restart succeeds exactly when the log replays without an error, and then shows exactly what the disk holds |
| Recovery.StartsAgainIff | internal/store/wal.go:85-96 | after a death between two effects the log opens, after one inside the write of a record exactly when none of it or just its header was written |
| Recovery.TornCommit | internal/store/wal.go:65-96 | after any run that ends inside a commit, the log cut inside the next record delivers all earlier records, and the disk holds the points it held |
| Recovery.ExactRecovery | internal/store/fsstore.go:41-77 | if no flush took the head since the store was opened and batches were applied in log order, a death, even inside the write of a record, and a restart rebuild each series as the live sample sequence followed by what was logged and not yet applied |
| Recovery.ReopenAgainChangesNothing | internal/store/fsstore.go:41-77 | after any run a second crash and restart yields the same log, head, directories and blocks |
| Recovery.CrashAnywhere | internal/store/fsstore.go:211-347 | every prefix of a run may end in a crash, which leaves the disk as it was |
| Hazards.FlushIsDurableIff | internal/store/fsstore.go:238-253 | while nothing was merged or expired, the disk after a flush holds exactly what is due if and only if each point of the overwritten block is in the head, in the current segment or in another directory |
| Hazards.FlushKeepsDueIff | internal/store/fsstore.go:238-253 | after any run, with compactions and expiries: every label set and time that is due from the horizon on survives a flush if and only if each one that was overwritten is in the head, in the current segment or in another directory |
| Hazards.FailedFlushKeepsDueIff | internal/store/block.go:52-60 | the same for a flush that fails to encode its data: what was overwritten has to be in the log or in another directory |
| Hazards.CommitInsideFlush | internal/store/fsstore.go:234-253 | after any run, a batch committed between copy and clear: the flush keeps all that was due, a new batch cannot be seen, and the log gives it back if and only if it ended below the limit of the segment |
| Hazards.RestartBetweenFlushes | internal/store/fsstore.go:41-77 | flush, crash, restart and flush again without a rotation: the second flush goes into the same directory and is a legal, lossless step |
| Hazards.OverwriteLosesPoint | internal/store/fsstore.go:238-253 | a run with a rotation before the first flush in which the second flush loses a due point |
| Hazards.AgePassKeepsBlocksIff | internal/store/fsstore.go:299-311 | the kept blocks stand in their directories afterwards if and only if blocks that share a directory expire together, as they do when none do share one |
| Hazards.AgePassKeepsDueIff | internal/store/fsstore.go:299-311 | after any run, every label set and time that is due from the later of horizon and cutoff on survives the age pass if and only if each one in the directory of an expired block is also in the log or in a directory that is left |
| Hazards.SharedDirectory | internal/store/fsstore.go:238-253 | a run after which two listed blocks with different ranges share a directory |
| Hazards.AgePassLosesPoint | internal/store/fsstore.go:299-311 | after that run an age pass between the two ranges loses a point that is due and has not expired |
| Hazards.CompactionSurvivesIff | internal/store/fsstore.go:283-290 | after any run every label set and time of the blocks on disk is kept if and only if the target is none of the sources, or there is nothing to keep |
| Hazards.NextCompactionHitsItsSource | internal/store/fsstore.go:275-294 | after compacting a list whose first block had the least time, and while the list only grows, the next compaction targets its own first source |
| Hazards.RecompactionEmptiesDisk | internal/store/fsstore.go:283-290 | after any run, compacting when the first block lies in the target leaves not one block on disk |
| Hazards.RecompactionLosesAll | internal/store/fsstore.go:275-294 | a run that gets there, after which nothing that is due can be recovered |
| EngineRuns.WriteRun | internal/store/wal.go:65-82 | logging a batch is a run of single writes and rotations that passes through the directory states of Log |
| EngineRuns.RemoveRun | internal/store/wal.go:99-121 | truncation in any order is a run of single removals |
| EngineRuns.SourceRun | internal/store/fsstore.go:288-290 | removing the sources is a run of removals, each of which may be seen with one file or no file left |
| EngineRuns.DropRun | internal/store/fsstore.go:299-311 | the age pass is a run that removes exactly expired directories |
| FSStores.FSStore.NewFSStore | internal/store/fsstore.go:41-77 | fails exactly when the replay fails; otherwise the head is the replayed records, the blocks those that can be read; on what a run left behind it succeeds exactly when every segment replays without an error, the store is that run continued by a restart, and nothing due is lost |
| FSStores.FSStore.Load | internal/store/fsstore.go:41-68 | log, head and blocks as they are found: the newest segment open, every readable block, the replayed records appended in order |
| FSStores.FSStore.OpenBlocks | internal/store/fsstore.go:184-208 | every directory whose two files can be read, once, by minimum time |
| FSStores.FSStore.ReplayInto | internal/store/fsstore.go:59-68 | committing the replayed records one by one appends them all in order |
| FSStores.FSStore.Commit | internal/store/fsstore.go:338-347 | log first, head second: both end with the batch, through the directory states of Log; if the records fit and the log does not end in a bare header, the batch is due, and every disk state on the way is one of the run |
| FSStores.FSStore.CollectHead | internal/store/fsstore.go:212-233 | each non-empty series of the head once, and their exact time range |
| FSStores.FSStore.WriteBlock | internal/store/block.go:33-63 | four states of the directory: meta.json emptied, meta.json written with older data still there, data.json emptied, the block complete; only the first three, and an error, when a value is NaN or infinite |
| Disks.BlockStates | internal/store/block.go:33-63 | these four states, and the first three, file by file |
| Blocks.FiniteIff | internal/store/block.go:57-60 | in the layout of IEEE 754 a value can be encoded exactly when its exponent field is not 2047 |
| Blocks.FiniteExamples | internal/store/block.go:57-60 | zero, one and the greatest finite value can be encoded; infinities, NaN and the stale marker cannot |
| FSStores.FSStore.FlushHead | internal/store/fsstore.go:211-256 | for any store: fails exactly when a head value has the exponent field of NaN and the infinities, and then head, log and list stay; else the head becomes one new block on disk and in the list, with its number of samples, the head is empty and older segments are gone; either way what can be queried is unchanged, and covered blocks stay covered; if it overwrites no block whose points the head lacks, it does so through states of a run, and nothing due is lost |
| FSStores.FSStore.FlushBlock | internal/store/fsstore.go:236-255 | the same from writeBlock on |
| FSStores.FSStore.Compact | internal/store/fsstore.go:275-294 | for any store and hash: two or more blocks become one merge of them, covered if they were, and every source directory is gone, even one that is the target, unless a merged value is NaN or infinite, which cannot be when the blocks hold none; without collisions and onto no source, through states of a run, and nothing due is lost |
| FSStores.FSStore.CompactAll | internal/store/fsstore.go:281-292 | the same for a list of two or more |
| FSStores.FSStore.RemoveDirs | internal/store/fsstore.go:288-290 | the source directories are removed one by one |
| FSStores.FSStore.AgePass | internal/store/fsstore.go:299-311 | exactly the expired directories are removed and the other blocks kept in order |
| FSStores.FSStore.DropExpired | internal/store/fsstore.go:296-311 | for any store: keeps exactly the blocks that reach the cutoff, in order, and removes the directories of the others; if blocks sharing a directory expire together, and blocks hold nothing later than their range says, it is a run, and the horizon moves up to the cutoff |
| FSStores.FSStore.Select | internal/store/fsstore.go:85-106 | for any store whose listed blocks are covered, whatever led to it: a point is returned exactly when it is in the head or a listed block, the matchers accept its labels and it lies in the window, although blocks are skipped by their range; with one equality matcher, exactly when its labels hold this label |
| FSStores.FSStore.LabelNames | internal/store/fsstore.go:109-139 | strictly ascending; a name is listed exactly when a label of a selected series of the head has it, or one of a matching series of a block whose range meets the window |
| FSStores.MatchingNames | internal/store/fsstore.go:123-130 | a name is found exactly when a label of a matching series of the block has it |
| FSStores.NamesCoverSelection | internal/store/fsstore.go:109-139 | the name of each label of a selected series is listed |
| Calls.CommitRun | internal/store/fsstore.go:338-347 | a commit whose records fit, to a log that does not end in a bare header, is a legal run with these disk states that adds the batch to what is due |
| Calls.FlushRun | internal/store/fsstore.go:211-256 | a flush that overwrites no block whose points the head lacks is a legal run with these disk states that changes nothing that is due |
| Calls.FailedFlushRun | internal/store/block.go:33-60 | a flush that cannot encode its data, into a directory of no listed block, is a legal run with these disk states that changes nothing that is due |
| Calls.MergeRun | internal/store/fsstore.go:275-294 | a compaction without collisions onto no source is a legal run with these disk states that changes nothing that is due |
| Calls.RetentionRun | internal/store/fsstore.go:296-311 | the age pass over blocks that expire together and whole is a legal run with these disk states that moves the horizon to the cutoff |
| Calls.ReopenRun | internal/store/fsstore.go:41-77 | a restart on a log that replays without an error is a legal continuation and changes nothing that is due |
| Retention.AgePassKeepsLatePoints | internal/store/fsstore.go:299-311 | no point at or after the cutoff is lost from the block list |
| Retention.SumSizes | internal/store/fsstore.go:313-317 | the sum of the sizes of the blocks' directories |
| Retention.TotalSizes | internal/store/fsstore.go:313-317 | one directory counts its size, a missing one nothing, and lists add up |
| Retention.SizePass | internal/store/fsstore.go:312-326 | keeps a suffix of the blocks and removes the directories of the rest; with distinct directories it is the longest suffix that fits |
| Retention.KeptIsLongestFit | internal/store/fsstore.go:318-325 | no longer suffix fits |
| Interleaving.StepConserves | internal/store/fsstore.go:338-347 | logging a batch, or applying any waiting one, conserves the samples of every series |
| Interleaving.EveryInterleavingConserves | internal/store/fsstore.go:338-347 | in every interleaving of any commits the log of every series is the head and the waiting batches, counted with multiplicity |
| Interleaving.QuiescentReplayAgrees | internal/store/fsstore.go:338-347 | when no commit is under way the replayed head has the same samples per series |
| Interleaving.LogOrderKeepsOrder | internal/store/fsstore.go:338-347 | if batches are applied in log order the replay is the head itself, in order |
| Interleaving.OrderCanDiffer | internal/store/fsstore.go:338-347 | a legal interleaving whose replay reverses the live order |
| Interleaving.SeriesOrderIsKept | internal/store/fsstore.go:338-347 | if the batches that touch one series are applied in log order, the replayed series is the live one followed by what is waiting |
| Interleaving.CommitInsideFlushIsVisibleIff | internal/store/fsstore.go:212-249 | a batch committed between copy and clear is visible afterwards exactly when it was visible before |
| Interleaving.LateBatchStaysIff | internal/store/fsstore.go:245-253 | a batch logged inside a flush and applied after the clear stays in the log as a whole exactly when the size before and its encoding together are below the limit |
| TopN.EvictFirst | internal/sessions/bbolt_store.go:161-182 | deleting the first key while there are too many keeps the N greatest |
| TopN.OnlineTop | internal/sessions/bbolt_store.go:161-182 | bounding before and after each insertion gives what bounding once at the end gives |
| TopN.TopSize | internal/sessions/bbolt_store.go:161-182 | the bound keeps N keys, or all when there are fewer |
| TopN.TopOfTop | internal/sessions/bbolt_store.go:161-182 | bounding twice is bounding by the smaller bound |
| Sessions.KeyOrder | internal/sessions/bbolt_store.go:308-312 | byte order of encoded times is the order of their 64-bit values, and the encoding is injective on these |
| Sessions.BBoltStore.NewBBoltStore | internal/sessions/bbolt_store.go:48-87 | fails exactly for an empty path, a bound that is not positive, or a file that cannot be made ready; on what a run of calls left, under whatever limits, it is the store of that run, now under the new limits |
| Sessions.BBoltStore.AppendEvent | internal/sessions/bbolt_store.go:104-159 | fails exactly without a session ID; otherwise an event with the zero time gets the clock's, the session was last seen at the event's time, the event stands under that time's key if anything does, and all else in the bucket was there before; the store is the run of its calls |
| Sessions.AppendStores | internal/sessions/bbolt_store.go:104-159 | what an append stores, and that it is stored when there is room |
| SessionLaws.SummaryFields | internal/sessions/bbolt_store.go:119-137 | the updates of AppendEvent over a whole history: the first and the last time, the last name, and the number of events |
| SessionLaws.SummaryKeepsLastSet | internal/sessions/bbolt_store.go:119-137 | model, tool, working directory and user are the last ones given by any event, whatever empty ones came after |
| Sessions.BBoltStore.EnforceBound | internal/sessions/bbolt_store.go:161-182 | counting and deleting first keys in a loop leaves exactly the entries of the N greatest keys |
| Sessions.BBoltStore.GetEvents | internal/sessions/bbolt_store.go:226-256 | the entries of the first keys at or after the start, at most the limit, 100 when none is given |
| Sessions.BBoltStore.Walk | internal/sessions/bbolt_store.go:236-250 | the cursor visits the keys from the start on in ascending order until the limit |
| Sessions.BBoltStore.ListSessions | internal/sessions/bbolt_store.go:201-223 | exactly the sessions seen since then, each once, newest first |
| Sessions.BBoltStore.CollectSessions | internal/sessions/bbolt_store.go:203-216 | the loop over the bucket finds exactly these sessions, each once |
| Sessions.BBoltStore.RunRetentionOnce | internal/sessions/bbolt_store.go:274-306 | exactly the sessions last seen before the cutoff are gone, with their events |
| Sessions.BBoltStore.DeleteSessions | internal/sessions/bbolt_store.go:294-303 | both buckets lose exactly these sessions |
| SessionLaws.OnlineBucket | internal/sessions/bbolt_store.go:104-182 | bounding a bucket before an event is stored in it makes no difference afterwards |
| SessionLaws.RunMatches | internal/sessions/bbolt_store.go:104-182 | after any run, with restarts under any limits, a session is stored exactly when it has a history, with the fold of it as metadata and the bucket that appending each event under the bound then in force leaves |
| SessionLaws.LeastBoundIsKept | internal/sessions/bbolt_store.go:161-182 | whatever the bounds were, the m greatest keys ever appended are stored, each with its last event, if no bound was below m |
| SessionLaws.HeldIfRoomy | internal/sessions/bbolt_store.go:161-182 | if each bound let in all events so far or as many as the last one does, the bucket is the last event at each of the N greatest keys |
| SessionLaws.RoomyIff | internal/sessions/bbolt_store.go:161-182 | only then is that so for every history |
| SessionLaws.OneBoundIsRoomy | internal/sessions/bbolt_store.go:48-87 | it is so while every process has the same bound |
| SessionLaws.LatestNOverRuns | internal/sessions/bbolt_store.go:104-182 | after any appends in any order of times on one side of 1970, any sweeps, and restarts whose bounds left room, a bucket holds exactly the N latest distinct times appended since the session began, each with the event appended last at it |
| SessionLaws.StoreInvariant | internal/sessions/bbolt_store.go:104-182 | sessions and buckets have the same keys, between 1 and N events each, at most EventCount, with first and last seen times right |
| SessionLaws.SweptAreRecent | internal/sessions/bbolt_store.go:274-306 | after a sweep exactly the sessions seen at or after the cutoff remain |
| SessionLaws.ListingIsByTime | internal/sessions/bbolt_store.go:226-256 | a listing by keys is the first stored events at or after the start by time, when all are on one side of 1970 |
| SessionLaws.QueryOverRuns | internal/sessions/bbolt_store.go:226-256 | after any run a query lists in ascending time last-appended events of the N latest times from the start on, leaving one out only for as many earlier ones as the limit |
| SessionLaws.BeforeEpochSortsLast | internal/sessions/bbolt_store.go:308-312 | keys of times before 1970 sort after those of all later times to 2262 |
| SessionLaws.KeysOrderTimesIff | internal/sessions/bbolt_store.go:308-312 | for times of 64-bit nanoseconds, keys order two times, and a start admits a key, as time does if and only if both are on the same side of 1970 |
| SessionLaws.HoldsLatestIff | internal/sessions/bbolt_store.go:104-182 | after any run a bucket holds exactly the N latest times if and only if there are no more than N, or all are on one side of 1970 |
| SessionLaws.EarlierEvictsLatest | internal/sessions/bbolt_store.go:161-182 | with room for one event, one before 1970 evicts the latest |
| SessionLaws.ListingAscendsIff | internal/sessions/bbolt_store.go:236-250 | a listing of a whole bucket ascends in time if and only if its times are on one side of 1970 |
| Deltas.Accumulator.EvictStale | internal/ingest/translator.go:337-344 | exactly the entries last seen more than ten minutes ago go |
| Deltas.Accumulator.AccumulateDelta | internal/ingest/translator.go:322-335 | the value returned is the sum of this hash's own deltas since its last gap longer than the TTL: the sum so far and this delta within ten minutes of the call before, else this delta alone |
| Deltas.StartsOver | internal/ingest/translator.go:322-344 | within 600 000 000 000 ns the sum goes on, after a longer gap it starts over |
| Deltas.RunRemembers | internal/ingest/translator.go:322-344 | after any calls the map's entry of a hash depends on that hash's calls alone |
| Deltas.OthersAreUnobservable | internal/ingest/translator.go:322-344 | with a monotone clock no other series' call, and no eviction it makes, changes an emitted value |
| Deltas.OwnIsByLabels | internal/ingest/translator.go:322-335 | without a collision a hash's calls are the calls of its label set |
| Histograms.Translator.Emit | internal/ingest/translator.go:170-177 | one value is accumulated if delta and appended |
| Histograms.Translator.AppendHistogramDataPoint | internal/ingest/translator.go:159-215 | one sample per bound, +Inf, _count and a _sum if there is one, returning their number: a bucket's labels are those of the base with the name and le replaced, a count's and a sum's those of the base with the name replaced; each bucket adds its count to the one before modulo 2^64 |
| Histograms.Translator.AppendExponentialHistogramDataPoint | internal/ingest/translator.go:236-292 | the same labels, with the printed bounds, and running counts that start from the zero count |
| Histograms.BucketsAreRunningTotals | internal/ingest/translator.go:159-215 | without overflow buckets are non-decreasing running totals, and +Inf equals _count exactly when the point's count is the total |
| Histograms.ExponentialBuckets | internal/ingest/translator.go:236-292 | the same from the zero bucket on, and +Inf equals a conforming _count exactly when there are no negative observations |
| Histograms.PointLabelsDistinct | internal/ingest/translator.go:397-408 | distinct bounds give pairwise distinct label sets |
| Histograms.PointSeries | internal/ingest/translator.go:159-215 | labels, times and values of a point's samples in plain terms |
| Histograms.OtherBaseOtherSeries | internal/ingest/translator.go:397-408 | points whose bases differ in a label other than the name and le have no series in common |
| Histograms.KeepsLabel | internal/ingest/translator.go:397-408 | every series of a point has the base's value of every other label |
| Histograms.EmitAllPerSeries | internal/ingest/translator.go:159-215 | a delta point adds to each of its series exactly one delta, and the appended sample is that series' sum since its gap |
| Histograms.DeltaHistogramStaysCumulative | internal/ingest/translator.go:159-215 | over any run of delta points with fixed bounds, among values of other series and from any accumulator that has not seen the histogram, every emitted bucket is its column's sum, and buckets do not decrease in le |
| Remote.AttemptsMeaning | internal/store/prometheus_remote.go:89-122 | a batch is tried between once and MaxRetries times, and again only after a network error or a code from 500 to 599 |
| Remote.BatchesCover | internal/store/prometheus_remote.go:155-164 | the slices are the whole list in order, none empty or too long, only the last may be short |
| Remote.CommitMeaning | internal/store/prometheus_remote.go:81-166 | under any script the requests are an initial part of the batches, each left after MaxRetries network errors and codes from 500 to 599, or after any other response; nil exactly when all codes are from 200 to 299 or from 500 to 599, and then all were tried; a response with another code is the last |
| Remote.DeliveredIff | internal/store/prometheus_remote.go:81-166 | every batch is accepted if and only if all codes are from 200 to 299 or from 500 to 599, and no MaxRetries in a row are network errors or from 500 to 599 |
| Remote.AcceptedOnce | internal/store/prometheus_remote.go:147-166 | if every response is a 2xx, each batch is sent once, and the requests end to end are the pending list |
| Remote.ServerErrorsDropEverything | internal/store/prometheus_remote.go:89-124 | if every response is a network error or a code from 500 to 599, every batch is tried MaxRetries times, nil is returned, and nothing was accepted |
| Remote.Sender.constructor | internal/store/prometheus_remote.go:39-54 | zero batch size and retries mean 500 and 3 |
| Remote.Sender.Send | internal/store/prometheus_remote.go:81-125 | the retry loop sends the batch again exactly after a network error or a code from 500 to 599, MaxRetries times at most, and reports an error exactly when the last response has a code neither from 200 to 299 nor from 500 to 599 |
| Remote.Sender.Commit | internal/store/prometheus_remote.go:147-166 | the index loop sends the batches one after the other, each as Send does; it fails exactly when some response has a code neither from 200 to 299 nor from 500 to 599, and that response is the last |
| Remote.VmAppender.Append | internal/store/victoriametrics.go:199-213 | the groups are those of everything appended so far |
| Remote.VmAppender.Commit | internal/store/victoriametrics.go:215-248 | the groups are sent once each as rows, in batches, and nothing is pending afterwards |
| Remote.GroupsAreSeries | internal/store/victoriametrics.go:199-213 | without a collision each series has one group with exactly its samples in order |
| Remote.OwnLabelsIff | internal/store/victoriametrics.go:199-213 | every sample is sent under its own labels if and only if no two label sets share a hash |

## Left out

Contracts that ask for something the code does not check, or say less than the name promises:

- FSStores.FSStore.FlushHead: continues a run only if it overwrites no block whose points the head lacks, if it does not fail into the directory of a listed block, and if no commit runs between its two locks; Hazards.FlushKeepsDueIff, Hazards.FailedFlushKeepsDueIff and Hazards.CommitInsideFlush say what happens otherwise.
- FSStores.FSStore.Compact: continues a run only if label hashes do not collide and the target is no source; Hazards.CompactionSurvivesIff and CompactionLaws.MergeKeepsLabelsIffNoCollision say what happens otherwise. A failed compaction is followed no further: it needs a value that no block can hold.
- FSStores.FSStore.DropExpired: continues a run only if blocks sharing a directory expire together and hold nothing later than their range says; Hazards.AgePassKeepsDueIff says what happens otherwise. It is the age pass alone; Retention.SizePass models the size pass on a block list, and runs of the engine do not contain it, since it deletes by size and not by time.
- FSStores.FSStore.Commit: continues a run only if the records fit the field widths of the log (Codec.RoundTripIffFits) and the log does not end in a bare header (WalLaws.LogAfterTornTail); a write error that does not end the process, which leaves part of the batch in the log, is not modelled.
- Durability.StepKeeps: a flush overlaps neither a commit nor a compaction; nothing in the repository but its tests calls FlushHead. Hazards.CommitInsideFlush places one commit inside a flush.
- FSStores.FSStore.NewFSStore: restarts on a directory that a run left behind are described fully only while all segment names have one width, that is below 10^8.
- FSStores.FSStore.Select: the order that sortSeries asks for is not modelled; MemStores.MemStore.Select likewise.
- Recovery.EveryMomentIsSafe: speaks of the disk between system calls; a death inside the write of a record is a step of the runs and Recovery.TornCommit.
- Recovery.DurableOverRuns: the process may stop at any step, but what a system call wrote stays; nothing is synced, so a crash of the machine may lose more.
- Remote.Sender.constructor: negative batch sizes and retry counts are not considered.
- Deltas.Accumulator.AccumulateDelta: sums are real numbers, float64 rounding is not modelled.
- Histograms.Translator.AppendExponentialHistogramDataPoint: the bounds computed with math.Pow and printed with %g are inputs.
- SessionLaws.RoomyIff: bounds the number of appends by 2^63, since there are no more times than that.
- Sessions.BBoltStore.AppendEvent: bbolt's limits on key sizes are not modelled, and the JSON of events and sessions is assumed to read back.

Not modelled:

- LabelValues, GetSession, Close, Rollback and the exemplars: they add only easy members.
- Gauge, sum and summary points, resource and scope labels, and the cleaning and suffixing of metric names: string functions with easy laws; the schema label that one scope leaves for the next is unspecified.
- JSON, protobuf, snappy, gzip and HTTP: a batch is what is sent; a half-written file of a block is one that cannot be read.
- Locks, goroutines, tickers and logging: commits overlap each other, compaction and retention; every other pair of calls is taken one after the other.
- Files in the log directory that are not segments, and read errors of the file system.
- sort.Slice, sort.Strings and sort.Search are modelled by what they guarantee (the last one step by step); Go's map order is arbitrary.
- Label sets are lists in canonical order, and equal exactly when the lists are.
