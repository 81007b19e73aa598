# A verified model of the storage engine

This project models the parts of the Prometheus time-series storage engine that
are algorithms and protocols rather than plumbing, in Dafny 4.11, and proves what
they are for. `dafny verify dfyconfig.toml` checks all of it.

The modules follow the engine from the bits of a sample to the blocks on disk.

* **Chunks.** `Words`, `Bits`, `BStream`, `Varint`, `XorCodec`, `XorChunk` and
  `XorLaws`: the bit stream, and the chunk codec with delta-of-delta times and XOR'd
  values.
  Words are integers modulo 2^64 and bytes integers below 256; floating-point
  values are their 64-bit patterns.
* **Write-ahead log.** `WalFormat`, `Wal`, `WalReader`, `WalTorn` and `WalCorrupt`: records
  fragmented over pages and segments, the reader, repair of corrupt logs, what is read
  after a crash at any byte, and what the reader refuses. The checksum is an arbitrary function.
* **Records and checkpoints.** `ByteBuffers`, `RecordCodec`, `Records` and
  `RecordLaws`: the three kinds of log records as bytes, and as torn bytes. `Checkpointing`, `Checkpoint` and
  `CheckpointDisk`: filtering the log and writing it again, from bytes to bytes, and why
  replay does not notice.
* **Postings and queries.** `Postings`: stateful, lazy iterators over ids as exact
  cursors on set expressions. `MemPostings`, `Labels` and `Matchers`: the in-memory
  index, label matchers, and the selection of series by matchers.
* **Head.** `Samples` and `HeadSeries`: cutting samples into chunks, truncation of a
  series, reading a chunk that is being written. `Head` and `HeadStates`: the head's
  times, its appenders and commits. `HeadRuns`, `HeadCompaction` and `EarlyAppenders`:
  writing the oldest window to a block and truncating the head while appenders come and
  go, and the condition under which that loses nothing. `HeadBlocks`: the same together
  with the blocks on disk, reloads and crashes. `Replay`, `ReplayMeaning`,
  `ReplayRuns`, `ReplayLaws` and `ReplayEnds`: the ring of goroutines that replays the log, as a
  state machine over single steps of the reader and of n workers, its equality with
  sequential replay, and its end.
* **Deletion.** `Tombstones`: interval lists and the iterator that leaves out deleted
  samples.
* **Blocks.** `Overlaps`, `Compaction`, `Reload`: overlap detection, planning, and
  the protocol by which blocks replace each other across crashes. `Merging`,
  `Populating` and `SeriesSets`: what a compaction writes.
* **Index files.** `IndexFormat`, `IndexTables` and `IndexContents`: the sections of
  an index file, and what it means that a file holds certain series, lists and
  values. `IndexSorting`, `IndexEncoding` and `IndexWriter`: the writer with its
  stages, aligned series and tables of offsets. `IndexReader` and `IndexLaws`: the reader,
  and what it accepts of any bytes.
  `IndexRoundTrip`: what was written is what is read.
* **Formats.** `KnownBytes`: bytes worked out by hand, which fix the order of bytes, the
  tags and the layout that round trips leave open.
* **Helpers.** `Options` and `Seqs`: optional values, and facts about sequences.

Code that changes things in place is modelled by classes and methods with loops;
each is proved against functions on values, and the lemmas are about these
functions. Two idioms recur. A method that combines iterators carries a ghost value
for what is still ahead, and says what a call does to it. And proofs `hide`
definitions they do not need, which keeps them quick.

Where the code does not do what it is meant to do, the model does what the code
does, and the exact condition is proved:

* `rangeForTimestamp` rounds towards zero, so a negative time lies in its window
  only if it is a window boundary (`WindowHolds`).
* An empty record logged into a segment that is exactly full makes it exceed its
  size (`FitsExactly`).
* `Intervals.add` loses the new interval when an end of the 64-bit range wraps
  around (`UnionUnlessWrapped`), and leaves a swallowed interval in the list
  (`AddedIsSorted`). The list stays sorted (`StaysSorted`), but a later addition can
  shrink its coverage (`RunLosesTimes`): `AddedExactly` says for any sorted list when
  one addition loses times, and `RunExactly` when a run does. An interval that is
  absorbed and ends later than the new one does no harm if the intervals behind it
  cover the rest, so the condition looks at these too.
* `populateBlock` decides by the first and the last interval whether a chunk has to be
  encoded again, and so lets deleted samples survive (`RewritingMissesSome`) unless the
  last interval reaches furthest (`RewrittenExactly`).
* A block for the oldest window is written while appenders may be open. That later
  appenders cannot reach into the window is proved (`LaterAppendersReject`); an
  appender that was opened early enough can. If it commits before the head is
  truncated, a sample is lost (`EarlyAppenderLoses`): a commit in between does no harm
  if and only if no series takes a sample of the window (`CommitInWindow`), and
  truncating does none if and only if the block holds all that is dropped
  (`TruncateExactly`). If it commits afterwards, the window is written again
  (`EarlyAppenderRewrites`) and reload fails for good (`SecondBlockOverlaps`): the head
  falls back behind the last window if and only if the appender's oldest time lies before
  its end (`CommitBeforeLast`, `NextWindowExactly`). Runs in which no such appender is
  open when a block is written lose nothing and never overlap (`NothingIsLost`).
* A series that was dropped and created again has a second id. As long as the record of
  the first one is in the log, replay ignores the samples of the second (`ReplayedExactly`,
  `RecreatedIsLost`), and a checkpoint preserves replay if and only if no label set that
  is still recorded loses its first id (`CheckpointPreservesReplay`).
* When the log ends in an error, the head has the samples before it, but its times are
  those from before the replay (`FailedLoadKeepsTimes`).
* The reader of the log panics on a zero byte among the first six bytes of a page
  (`ZeroPagePanics`); `Reader.Next` says exactly when. No written log, no cut of one and
  no torn page filled up with zeros makes it panic (`TornLog`, `TornPageReads`).
* `bigEndianPostings.Seek` cuts its target to 32 bits. From 2^32 on the answer is right
  if and only if no id ahead reaches the bits that are left (`SeekInList`); otherwise it
  claims an id that is too small (`FarSeekMisleads`).
* A second call of `AddSymbols` in the same stage makes an index use numbers of the
  second table while readers look into the first (`SecondTableMisleads`); that is
  harmless if and only if the second list is a prefix of the first
  (`AgreesExactly`).
* The lengths of sections are cut to 32 bits, and of a series entry at most five
  bytes are read, so that longer ones do not read back (`FrameBack`,
  `VarFrameBack`).
* A query without any matcher selects nothing (`SelectionIsExact`).
* The binary search by a prefix of one character takes the first character of every
  value it looks at. It panics if and only if the empty value is among the values and
  either the only one or followed by a value from the prefix on (`TuplesByPrefix`).

Preconditions say what the code relies on: at most 65535 samples in a chunk, as many
as its 16-bit counter can hold, also in the last chunk of a series of the head; ids
from 1 on, because iterators start at 0; timestamps from 0 on for a series of the head;
blocks of a compaction in time order.

## Model

| member | source | states |
|---|---|---|
| `BStreams.BStream.WriteBit` | chunkenc/bstream.go:77-90 | appends exactly one bit to the bits written; finished bytes never change again |
| `BStreams.BStream.WriteByte` | chunkenc/bstream.go:92-106 | appends the eight bits of the byte at any bit offset |
| `BStreams.BStream.WriteBits` | chunkenc/bstream.go:108-122 | appends the low nbits bits of the word, most significant first, at any offset |
| `BStreams.BStream.ReadBit` | chunkenc/bstream.go:124-141 | takes the first unread bit, or reports the end exactly when none is left |
| `BStreams.BStream.ReadByte` | chunkenc/bstream.go:147-177 | takes the first eight unread bits at any offset, or reports the end if fewer are left |
| `BStreams.BStream.ReadBits` | chunkenc/bstream.go:179-210 | takes the first nbits unread bits as a number, or reports the end if fewer are left |
| `Varints.UvarintRoundTrip` | chunkenc/xor.go:144-150 | the variable-length integers of a chunk read back, with nothing after them touched |
| `XorCodec.DodRoundTrip` | chunkenc/xor.go:158-172 | each of the buckets of 0, 14, 17, 20 and 64 bits for a delta of deltas decodes to the same 64-bit word |
| `XorLaws.DodSize` | chunkenc/xor.go:158-172 | 1, 16, 20, 24 or 68 bits for a delta of deltas, the smallest of them for the ranges of 14, 17 and 20 bits, with their prefixes |
| `XorCodec.ValueRoundTrip` | chunkenc/xor.go:188-221 | a value written with a reused or a new window decodes to the same 64 bits, for any pair of linked appender and iterator states |
| `XorLaws.ValueSize` | chunkenc/xor.go:188-221 | an unchanged value takes one bit; the last window is used again exactly if the differing bits lie inside it; a new window is the smallest, but for at most 31 leading zeros; each with its prefix and its fields |
| `XorCodec.SampleRoundTrip` | chunkenc/xor.go:131-182 | one appended sample is read by one Next as the same time and value, and leaves appender and iterator linked again |
| `XorChunks.AppendEncodes` | chunkenc/xor.go:131-182 | appending a sample behind an encoding of a list makes it an encoding of the list with that sample |
| `XorChunks.RunRoundTrip` | chunkenc/xor.go:79-221 | for every sequence of appends, with the appender thrown away and made again at any points, decoding yields exactly the appended samples bit for bit |
| `XorLaws.CutChunkFails` | chunkenc/xor.go:246-332 | an encoding that has lost any bits at its end does not decode |
| `XorChunks.RunEncodes` | chunkenc/xor.go:79-113 | after any such sequence a re-made appender, whose window may differ from the original one, still continues the encoding |
| `XorChunks.XORChunk.Iterator` | chunkenc/xor.go:105-118 | a new iterator over the chunk's bytes is about to yield exactly the chunk's samples |
| `XorChunks.XORChunk.NumSamples` | chunkenc/xor.go:74-76 | the header's count is the number of samples that the chunk holds |
| `XorChunks.XORChunk.Appender` | chunkenc/xor.go:79-103 | an appender rebuilt by iterating over the chunk may continue it |
| `XorChunks.XorAppender.Append` | chunkenc/xor.go:131-182 | on bytes: adds the sample to the list that the chunk holds, counts it in the header and leaves earlier bytes alone |
| `XorChunks.XorIterator.Next` | chunkenc/xor.go:246-332 | yields the next sample of what remains, stops after the counted number, and reports an error exactly when the bits do not decode |
| `WalFormat.RecordRead` | wal/wal.go:730-822 | reading at the start of a written record, at any page offset, returns its bytes and stops behind it |
| `KnownBytes.FragmentBytes` | wal/wal.go:497-515 | the bytes of concrete fragments of all four types |
| `WalFormat.HoldsReads` | wal/wal.go:469-524 | a stream that holds a list of records reads as these records and then ends without error |
| `WalFormat.PrefixReads` | wal/wal.go:730-822 | for any bytes, a panic of the reader included: reading a prefix of a stream yields a prefix of the records of the whole stream |
| `Wal.LeftExact` | wal/wal.go:470-479 | the count of bytes left in the free pages is exact: a record fits if and only if its fragments do |
| `Wal.FitsExactly` | wal/wal.go:470-479 | a record goes into the active segment if and only if the segment stays within its size, or the record is empty and the segment full; in that case the size is exceeded |
| `Wal.WAL.NewSize` | wal/wal.go:176-241 | refuses a size that is not whole pages; a torn last page is filled with zeros |
| `Wal.WAL.FlushPage` | wal/wal.go:392-419 | writes what is pending, pads a page that is full or to be cleared, and changes nothing that is on disk |
| `Wal.WAL.NextSegment` | wal/wal.go:362-387 | finishes the segment at a page boundary, still holding its records, and opens an empty one |
| `Wal.WAL.LogRecord` | wal/wal.go:469-524 | the record's fragments are appended to the active segment if they fit there and start a new segment otherwise |
| `Wal.WAL.Log` | wal/wal.go:454-465 | every batch, empty records and oversized ones included: the records of all segments are the old ones and the batch, bytes on disk only grow, a non-empty batch is on disk when it returns, and the size bound of segments is kept |
| `Wal.WAL.Close` | wal/wal.go:570-595 | writes the last page to its end: all that was logged is on disk in whole pages |
| `Wal.LargeIsAlone` | wal/wal.go:466-479 | with non-empty records a segment larger than segmentSize holds a single record |
| `WalReader.LogReadsBack` | wal/wal.go:626-703 | reading all segments in a row gives the logged records in order and no error, and so does each finished segment on its own |
| `WalTorn.TornLog` | wal/wal.go:626-822 | a log cut after any number of bytes reads as exactly those logged records whose last fragment ends by the cut, and then runs into the end, never into a corruption or a panic |
| `WalTorn.EndsBehindFragments` | wal/wal.go:481-515 | a record that is logged at any page offset ends directly behind its last fragment, whatever is written later; the padding of the page does not count |
| `WalTorn.CrashReads` | wal/wal.go:392-465 | if any part of the bytes that were on disk at an earlier point is all that is left, what is read is such a prefix of everything logged |
| `WalTorn.TornPageReads` | wal/wal.go:225-241 | filling up the torn last page with zeros on opening does not make the reader panic, and keeps every record that was read before |
| `WalTorn.ZeroPagePanics` | wal/wal.go:730-766 | a stream that begins with a zero byte, as a page never written does, makes the reader panic |
| `WalReader.Reader.Next` | wal/wal.go:721-822 | on any bytes, the stateful reader returns the records, errors and positions of the specification of the format, and panics exactly where it says so: on a zero byte at page offset 0 to 5 |
| `WalCorrupt.AcceptedIsIntact` | wal/wal.go:730-822 | whatever the bytes: a record that is returned is the concatenation of the data of fragments whose types are in order and whose stored lengths and checksums are right, with only zeros between them |
| `WalCorrupt.BadChecksumRefused` | wal/wal.go:785-793 | a fragment whose stored checksum is not that of its data ends the log as corrupt; exactly the records before it are read, whatever follows |
| `WalCorrupt.BadLengthRefused` | wal/wal.go:776-780 | the same for a header that announces more data than a page can have |
| `WalCorrupt.DirtyPageRefused` | wal/wal.go:745-767 | the same for a byte other than zero in the empty rest of a page |
| `WalCorrupt.MisplacedRefused` | wal/wal.go:796-815 | the same for a fragment that continues a record where none was begun, and for one of unknown type |
| `WalCorrupt.InterruptedRefused` | wal/wal.go:796-815 | the same for a full or first fragment before a begun record has ended, after any number of fragments |
| `WalReader.Diagnosis` | wal/wal.go:827-843 | a log with a corrupt segment reads as the records before the corruption, whatever follows |
| `WalReader.Repair` | wal/wal.go:268-354 | unless the reader panics: the repaired log holds the records before the corruption and no others, even if logging them again cuts further segments; intact segments are untouched |
| `PostingsLists.Search` | index/postings.go:529-532 | sort.Search: the first index at which a monotone condition holds |
| `PostingsLists.Landing` | index/postings.go:523-540 | where a binary search in a list lands, what is ahead are exactly the ids beyond |
| `PostingsLists.Postings.Next` | index/postings.go:229-241 | for every tree of intersections, unions and differences: delivers the smallest id of the set expression still ahead, or reports that none is; after a first false it never delivers an id from a limit on |
| `PostingsLists.Postings.Seek` | index/postings.go:233-235 | keeps the current id if it is at least v, and otherwise moves to the first id of the set expression that is at least v |
| `PostingsLists.Postings.NextInList` | index/postings.go:513-521 | plain and numbered lists as such cursors, with their different behaviour at the end |
| `PostingsLists.Postings.SeekInList` | index/postings.go:570-588 | Seek by binary search; a target from 2^32 on is cut to 32 bits by a numbered list, and the answer is then right if and only if no id ahead reaches these bits |
| `PostingsLists.FarSeekMisleads` | index/postings.go:570-588 | a concrete numbered list that claims to have an id from 2^32 + 3 on |
| `PostingsLists.Postings.JoinAt` | index/postings.go:292-309 | doNext ends, at the smallest id common to both operands or with proof that there is none |
| `PostingsLists.Postings.NextCommon` | index/postings.go:311-316 | Next of an intersection, which looks ahead on both operands |
| `PostingsLists.Postings.SeekCommon` | index/postings.go:318-323 | Seek of an intersection |
| `PostingsLists.Postings.DeliverMerged` | index/postings.go:359-395 | Next of a union, one id ahead on both operands, without duplicates |
| `PostingsLists.Postings.SeekMerged` | index/postings.go:397-407 | Seek of a union, also when an operand has ended before |
| `PostingsLists.Postings.DeliverLeft` | index/postings.go:442-473 | Next of a difference passes over removed ids and ends |
| `PostingsLists.Postings.SeekLeft` | index/postings.go:475-485 | Seek of a difference |
| `PostingsLists.Intersect` | index/postings.go:267-276 | a balanced tree over any number of iterators delivers the ids in all of them, and nothing if there are none |
| `PostingsLists.Merge` | index/postings.go:333-342 | a balanced tree delivers the ids in any of them |
| `PostingsLists.Without` | index/postings.go:418-420 | delivers the ids of the first that are not in the second |
| `PostingsLists.ExpandPostings` | index/postings.go:220-225 | the delivered ids in strictly increasing order, each exactly once |
| `PostingsLists.SameAnswers` | index/postings.go:229-248 | until something runs out, two iterators with the same ids ahead answer every call alike |
| `Labelling.GetIs` | labels/labels.go:75-82 | with unique names, Get returns a non-empty value if and only if the label set has that pair |
| `Labelling.LabelsOrder` | labels/labels.go:143-159 | Compare is a strict total order and yields zero exactly for equal label sets |
| `Labelling.FirstLabelDecides` | labels/labels.go:143-159 | the first label that differs decides, by its name and then by its value, and a set comes before those that it begins |
| `Labelling.FirstCharacterDecides` | labels/labels.go:143-159 | strings are ordered by the first character that differs, and a string comes before those that it begins |
| `Labelling.PrefixesComeFirst` | labels/selector.go:104-117 | from the prefix on, the strings with that prefix come before all others |
| `MemIndex.MemPostings.AddFor` | index/postings.go:200-217 | moving a new id down keeps the list strictly increasing, with just that id added |
| `MemIndex.MemPostings.Add` | index/postings.go:189-198 | the lists stay exactly the ids of the series by label, with one more series |
| `MemIndex.MemPostings.Delete` | index/postings.go:131-173 | the lists stay exactly the ids of the series by label, without the deleted ones |
| `Matching.TuplesByPrefix` | querier.go:221-249 | panics exactly if the search takes the first character of an empty value, and otherwise finds exactly the values with the prefix, although it compares whole values |
| `Matching.PostingsForMatcher` | querier.go:251-307 | for a consistent index, on every path: exactly the ids of the series that the matcher accepts, or a panic exactly where the prefix search panics |
| `Matching.PostingsForUnsetLabel` | querier.go:309-342 | a matcher that accepts the empty value also selects the series without the label |
| `Matching.PostingsForMatchers` | querier.go:207-218 | exactly the ids of the series for which Selector.Matches holds, if there is a matcher, unless one of the prefix searches panics |
| `Matching.SelectionIsExact` | labels/selector.go:25-32 | without any matcher nothing is selected, which is right if and only if there are no series |
| `HeadSeries.WindowHolds` | db.go:817-820 | a time lies in its window if and only if it is not negative or is a window boundary |
| `HeadSeries.ComputeChunkEndTime` | head.go:1474-1480 | without overflow: the bound if four times the span of the first quarter does not fit before it, and otherwise between four and eight times the span after the start |
| `HeadSeries.MemSeries.Append` | head.go:1429-1469 | if the last chunk has room: exactly the samples newer than all others are added at the end; a chunk is cut exactly when due, a chunk with a quarter of its samples at the estimate; other chunks are untouched; chunks stay in order, each in one window |
| `HeadSeries.QuarterDecides` | head.go:1446-1455 | after the first quarter of a chunk, a sample less than four times its span after the start still goes into it, and one eight times its span after the start begins another |
| `HeadSeries.NextCutExactly` | head.go:1349-1367 | a new chunk is to end with its window, a chunk with a quarter of its samples at the estimate, and otherwise the time stays |
| `HeadSeries.MemSeries.CheckAppendMeans` | head.go:1380-1398 | what is refused: older samples, and a different value at the last time; an exact repetition is let through |
| `HeadSeries.MemSeries.TruncateChunksBefore` | head.go:1414-1426 | removes exactly the leading chunks that end before the time; the ids of the others stay valid |
| `HeadSeries.MemSeries.Iterator` | head.go:1482-1503 | delivers the chunk of an id, and nothing for an id no longer held; the last chunk by way of the sample buffer |
| `HeadSeries.MemSafeIterator.Next` | head.go:1530-1539 | steps through all samples of the chunk but reads its bytes only up to the last four |
| `HeadSeries.MemSafeIterator.At` | head.go:1541-1547 | the sample from the buffer is the sample that the chunk holds there |
| `HeadSeries.FlatOrdered` | head.go:1429-1469 | the samples of all chunks are in strictly increasing time order |
| `HeadSeries.ChunkBetween` | head.go:1349-1367 | every sample of a chunk lies in the same aligned window |
| `HeadSeries.KeepsFrom` | head.go:1412-1426 | truncation loses no sample from the given time on |
| `HeadSeries.HandOver` | db.go:385-413 | for one series: the chunks that a block for an aligned window gets are those that truncation then removes; they lie in the window, and nothing is lost or kept twice |
| `Heads.Head.InitTime` | head.go:544-556 | sets both times to the first sample's, once |
| `Heads.Head.UpdateMinMaxTime` | head.go:276-295 | widens the head's times, never narrows them |
| `Heads.Head.GetOrCreate` | head.go:1099-1149 | the series of a reference, with an empty one created exactly if there is none; all others stay |
| `Heads.Head.Truncate` | head.go:460-487 | from every series exactly the leading chunks that end before the time; nothing below the present minimum, and no chunks on the first call |
| `Heads.HeadAppender.AddFast` | head.go:680-711 | refuses times below the appender's bound, unknown series and what the series refuses, and otherwise widens the appender's times and notes the sample |
| `Heads.HeadAppender.Add` | head.go:665-678 | the same with the series created first, unless the time is out of bounds |
| `Heads.HeadAppender.Commit` | head.go:743-772 | appends the samples one after the other, leaves out those that have become too old since they were added, and widens the head's times |
| `HeadStates.CommitHolds` | head.go:743-772 | a commit appends to each series exactly the samples that the series takes, in order, and nothing else |
| `HeadStates.CheckedExactly` | head.go:1380-1398 | what a series answers, told from its samples: taken if newer than all or a repetition of the last one, out of order if there is a newer one, an amendment if the last one has the same time and another value |
| `HeadStates.AddFastKeeps` | head.go:680-711 | which error comes when; a sample that is taken is noted behind the others, and otherwise the appender stays as it was |
| `HeadStates.CommitKeeps` | head.go:743-772 | after any commit the head's times bound all chunks again |
| `HeadStates.AddKeeps` | head.go:579-678 | adding a sample, also as the first one of all, keeps the head's times bounding all chunks and leaves stored samples alone |
| `HeadRuns.CutIsBelow` | head.go:1412-1426 | dropping the chunks that end before an aligned time drops exactly the samples before it, because no chunk crosses a window |
| `HeadRuns.TruncateKeeps` | head.go:460-487 | truncating at an aligned time keeps exactly the samples from it on, and the times go on to bound all chunks |
| `HeadRuns.VisibleIsBelow` | head.go:1058-1085 | what a block for an aligned window sees of a series is all its samples before the window's end, as the head has none before its start |
| `HeadRuns.LaterAppendersReject` | head.go:610-668 | once the head is to be compacted, an appender opened from then on takes nothing before the end of the window that is written |
| `HeadRuns.OldWindowIsDue` | db.go:385-391 | a window that ended one and a half windows before the newest sample is due to be written |
| `HeadCompaction.CommitInWindow` | db.go:385-413 | a commit between writing a block and truncating the head leaves the block exact if and only if no series takes a sample before its end |
| `HeadCompaction.TruncateExactly` | db.go:385-413 | truncating after a block has been written keeps every accepted sample once if and only if the block is exact |
| `HeadCompaction.StepKeeps` | db.go:385-413 | opening, adding, committing, rolling back, writing a block, truncating, and a restart from an intact log keep all invariants, if no appender that takes samples before the block's end is open when the block is written |
| `HeadCompaction.RunConserves` | db.go:385-413 | after any such run, with any number of appenders, compactions and restarts: blocks and head hold every sample that was ever accepted, once and in order; the head's times bound all chunks and lie behind the last window that was dropped |
| `HeadCompaction.NextWindowExactly` | db.go:385-391 | the next window starts behind the last one that was written if and only if the head's minimum time lies behind it |
| `HeadCompaction.CommitBeforeLast` | head.go:743-772 | a commit moves the head back before the last window if and only if the appender's oldest time lies before its end |
| `HeadBlocks.WriteIsBehind` | db.go:385-413 | a block that is written for the head's oldest window starts behind all blocks on disk, which is what reload needs |
| `HeadBlocks.FinishTruncates` | db.go:562-570 | at the end of a reload the head is truncated where its most recent block ends: exactly the window just written is dropped, and after a compaction of blocks nothing |
| `HeadBlocks.ActionKeeps` | db.go:368-560 | appends, block writes, compactions of blocks, single steps of reload, crashes and restarts keep the invariants of head and blocks and their connection |
| `HeadBlocks.NothingIsLost` | db.go:368-560 | after any run of these: blocks and head hold every accepted sample once and in order, reload finds no overlap and the next write causes none, and each written block is loaded exactly once |
| `EarlyAppenders.EarlyAppenderLoses` | db.go:385-413 | a run of calls from an empty head: when an appender that was opened early commits between writing a block and truncating the head, neither the block nor the head holds its sample afterwards |
| `EarlyAppenders.EarlyAppenderRewrites` | db.go:385-391 | when it commits after the truncation, the head falls back and is to be compacted for the same window again |
| `EarlyAppenders.SecondBlockOverlaps` | db.go:534-610 | with this second block beside the first one, reload fails |
| `Replay.BoundedStep` | head.go:322-341 | under every step, channels stay within 300 batches and at most 301*n+1 batches exist |
| `Replay.ClosingStep` | head.go:238-274 | channels are closed one after the other, only when nothing more can come |
| `Replay.Progress` | head.go:297-410 | as long as the reader has not finished, the reader or some worker can take a step |
| `ReplayMeaning.PendingWorker` | head.go:249-271 | a worker's step takes at most one sample off its own pending ones and reorders nothing for any worker |
| `ReplayMeaning.PendingReader` | head.go:353-373 | cutting records into batches and reusing returned buffers changes no worker's pending samples |
| `ReplayMeaning.SequentialMeans` | head.go:297-410 | sequential replay, one series at a time: its samples in log order, and the minimum and maximum over all samples that count |
| `ReplayLaws.DeletedExactly` | head.go:378-391 | after replay a time of a series is deleted if and only if it was before or some record says so whose range does not end too early, at every point of the log if and only if no addition loses times; the list is sorted, and other series are untouched |
| `ReplayLaws.SamplesExactly` | head.go:249-271 | after replay a series has what it had and, of its samples in the log, exactly those that count and are newer than everything before them, in order |
| `ReplayRuns.MinWorker` | head.go:276-295 | compare-and-swap updates by several workers keep the head's minimum time right |
| `ReplayRuns.InvariantStep` | head.go:238-410 | all invariants hold after every step of the reader or of a worker |
| `ReplayRuns.RunIsSequential` | head.go:297-410 | for every interleaving and any number of workers: no deadlock, and at the end the head's series, deleted ranges and times are those of sequential replay |
| `ReplayEnds.StepFalls` | head.go:238-410 | a measure falls with every step of the reader or of a worker, also with an update of the times that has to be tried again |
| `ReplayEnds.EveryRunEnds` | head.go:297-410 | no run is longer than the measure of its first state, and where nothing can go on the log has been replayed |
| `ReplayEnds.FailedLoadKeepsTimes` | head.go:397-402 | when reading the log fails, the channels stay open and the head's times stay those from before the replay, whatever has been added to its series |
| `ReplayEnds.FailedLoadMisleads` | head.go:397-402 | a concrete run after which a series holds a sample and the head has no times |
| `ByteBuffers.UvarintBack` | encoding_helpers.go:117-128 | binary.Uvarint inverts PutUvarint for every 64-bit value |
| `RecordLaws.UvarintFits` | encoding_helpers.go:117-128 | a number that is read has at most ten bytes, of which the tenth adds a single bit |
| `ByteBuffers.StringBack` | encoding_helpers.go:90-102 | length-prefixed strings read back, with the rest of the buffer left |
| `RecordCodec.SeriesBack` | record.go:64-93 | a series entry reads back, its labels sorted again |
| `RecordCodec.SortingSorts` | record.go:64-93 | the labels that are read are sorted by name, without losing or adding any |
| `RecordCodec.SampleBack` | record.go:96-128 | references and times relative to the first sample, modulo 2^64, read back exactly |
| `RecordCodec.RecordBack` | record.go:64-213 | decoding inverts encoding for all three kinds of records |
| `RecordLaws.CutRecordRefused` | record.go:64-93 | a series record that ends inside an entry does not decode, however many entries are complete |
| `RecordLaws.CutSamplesRefused` | record.go:96-128 | the same for a sample record |
| `RecordLaws.CutStonesRefused` | record.go:131-152 | the same for a record of deleted ranges |
| `RecordLaws.UnknownRefused` | record.go:52-61 | a record of another type, or without any, does not decode |
| `KnownBytes.SeriesRecordBytes` | record.go:160-174 | the bytes of a concrete series record |
| `KnownBytes.SamplesRecordBytes` | record.go:177-198 | the bytes of a concrete sample record |
| `KnownBytes.StonesRecordBytes` | record.go:201-213 | the bytes of a concrete record of deleted ranges |
| `Records.EncodeSeries` | record.go:160-174 | the encoder's loops append exactly that encoding to the buffer |
| `Records.EncodeSamples` | record.go:177-198 | the same for samples |
| `Records.EncodeStones` | record.go:201-213 | the same for deleted ranges |
| `Records.DecodeRecord` | record.go:52-152 | the decoder with its sticky error returns exactly what the specification decodes, or an error if nothing does |
| `Checkpointing.KeptIsRegular` | checkpoint.go:166-244 | after filtering, series records still precede the samples that are left, and each id is recorded once |
| `Checkpointing.RecentIs` | checkpoint.go:194-210 | of samples, exactly those from the time on are kept |
| `Checkpointing.RecentStonesIs` | checkpoint.go:212-230 | of deleted ranges, exactly those are kept that do not end before the time |
| `Checkpointing.CheckpointPreservesReplay` | checkpoint.go:166-244 | for any log with one record for each id: replaying a checkpoint and the rest gives the kept series, the deleted ranges and the times of the whole log, dropped series had nothing left, if and only if no label set that is still recorded has lost its first id |
| `Checkpointing.CheckpointsPreserveReplay` | checkpoint.go:100-269 | the same for any number of checkpoints, each taken of the log left by the one before, if each meets that condition |
| `Checkpointing.FirstsExactly` | checkpoint.go:177-190 | filtering brings no other ids to light if and only if that condition holds |
| `Checkpointing.ReplayedExactly` | head.go:1114-1120 | replay finds exactly the ids whose record comes first among those of their label set, with their samples; those of later ids are lost |
| `Checkpointing.RecreatedIsLost` | head.go:1114-1120 | a concrete log of a series that was dropped and created again, whose sample replay ignores |
| `Checkpointing.RecreatedComesBack` | checkpoint.go:177-186 | for such a log a checkpoint without the old record does not meet the condition |
| `Checkpoint.KeptEvents` | checkpoint.go:177-232 | filtering the entries of records, and dropping records that become empty, filters the log's events |
| `Checkpoint.WriteCheckpoint` | checkpoint.go:166-244 | fails exactly when a record cannot be decoded; otherwise the new log gets the encodings of what is kept, in order, however it is batched |
| `CheckpointDisk.CheckpointOf` | checkpoint.go:100-258 | from bytes to bytes: the last checkpoint and the first segments are read, filtered and written to segments that hold exactly the kept records |
| `CheckpointDisk.CheckpointRound` | checkpoint.go:100-269 | on disk: the last checkpoint and the first segments are replaced by a checkpoint of exactly their kept records, and the other segments stay |
| `CheckpointDisk.RoundOnDisk` | checkpoint.go:100-269 | what CheckpointRound does to the disk does to the events on disk what filtering does |
| `CheckpointDisk.RoundsPreserveReplay` | checkpoint.go:100-269 | after any number of such rounds in which first ids stay, the head that is replayed from the bytes has the kept series, the deleted ranges and the times of the original log |
| `Tombstones.Add` | tombstones.go:239-282 | the loops of add compute the recursive form that the lemmas are about |
| `Tombstones.AddedIsUnion` | tombstones.go:239-282 | adding to a disjoint list covers exactly the old times and the new interval, unless an end wraps around; then the list stays unchanged |
| `Tombstones.UnionUnlessWrapped` | tombstones.go:239-282 | the result is the union if and only if no end wraps around into the first interval or the new times were covered already |
| `Tombstones.AddedIsSorted` | tombstones.go:234-282 | a disjoint list stays disjoint if and only if no interval is swallowed |
| `Tombstones.StaysSorted` | tombstones.go:234-282 | whatever is added to a sorted list, overlapping or not, it stays sorted by start, as the iterator needs |
| `Tombstones.AddedExactly` | tombstones.go:239-282 | on any sorted list, wrap-around included: the result is the union if and only if no interval is absorbed that ends behind the new end without a later one making up for it |
| `Tombstones.RunExactly` | tombstones.go:203-209 | the list is the union of what was added at every point of a run of additions if and only if each of them meets that condition where it happens; it is sorted in any case |
| `Tombstones.RunIsUnion` | tombstones.go:203-209 | a run of additions each of which meets that condition covers exactly the union, also if intervals are swallowed |
| `Tombstones.RunLosesTimes` | tombstones.go:254-277 | a run of three additions that loses times 5 to 10 because the second one swallowed an interval |
| `Tombstones.DeletedIterator.Next` | querier.go:867-889 | over any list sorted by start: delivers exactly the samples outside all intervals, in order, though it drops intervals as it goes |
| `Overlaps.FindGroups` | db.go:625-668 | the groups are cliques of overlapping blocks, and every set of blocks pending together lies in one of them |
| `Overlaps.Collect` | db.go:670-688 | no two groups have the same common range, so that none replaces another in the result |
| `Overlaps.OverlappingBlocks` | db.go:625-689 | every set of mutually overlapping blocks lies in some group, every group is mutually overlapping, and the result is empty if and only if nothing overlaps |
| `Compaction.StartIsAligned` | compact.go:253-258 | the start of the aligned range is right for negative times too |
| `Compaction.SplitByRange` | compact.go:245-282 | the loops compute the recursive split |
| `Compaction.SplitIsWhole` | compact.go:241-282 | each group is adjacent and is all of the blocks in one aligned range; no fitting block is left out |
| `Compaction.SelectDirs` | compact.go:204-239 | returns the first group of the smallest range that is worth compacting, and nothing exactly if there is none |
| `Compaction.RipeIsWorthwhile` | compact.go:218-235 | worth compacting are exactly the groups of several blocks that are all of one aligned range, did not fail, and span it or are followed by another block |
| `Compaction.SplitExactly` | compact.go:241-282 | the groups of the split are exactly the sets of all blocks in one aligned range |
| `Compaction.Plan` | compact.go:170-200 | whatever the order of the blocks, over their time order and never with the most recent one: several blocks are planned if and only if some range has a group that is to be compacted, and then the first of the smallest such range; no block that starts with the most recent one or later can still belong to it; otherwise one cluttered block, or nothing |
| `Compaction.RipeIsFinal` | compact.go:229-235 | a group is not compacted too early: its range ends before the most recent block starts |
| `Compaction.ClutteredExactly` | compact.go:188-196 | cluttered are the large blocks of whose series more than one in twenty have tombstones, told in whole numbers |
| `Compaction.OnlyOrder` | compact.go:170-173 | blocks that do not overlap have a single time order, so that an unstable sort makes no difference |
| `Compaction.CompactBlockMetas` | compact.go:284-316 | the new block's extent, level, sources and parents |
| `Compaction.CompactedIs` | compact.go:284-316 | the new block reaches exactly over its parents, has all their sources and no others, names exactly them as parents, and its level is greater by one than the greatest of theirs |
| `Compaction.PlanKeepsLayout` | db.go:417-441 | carrying out a plan keeps blocks ordered and apart, leaves the most recent one, and lowers the number of blocks plus tombstoned blocks, so that the loop ends |
| `Reload.Classify` | db.go:483-533 | what reload marks for deletion and what it loads |
| `Reload.StepKeeps` | db.go:458-560 | every compaction, deletion and crash, and every write of a block that overlaps none, which HeadBlocks proves of the head's, keeps each persisted source in exactly one live block, and live blocks apart |
| `Reload.LoadsExactly` | db.go:533-538 | after a block has been written, reload succeeds if and only if the block overlaps none of those on disk |
| `Reload.CompactedLive` | compact.go:284-316 | a compaction replaces its parents among the live blocks without losing or doubling a source |
| `Reload.ReloadIsSafe` | db.go:458-560 | after any run of these with crashes at any point of deletion: reload finds no overlap, loads each source exactly once and deletes only what a loaded block supersedes |
| `Reload.CanBeArranged` | compact.go:170-173 | separate blocks can always be put in the order that planning needs |
| `Merging.MergeAt` | compact.go:793-833 | merging keeps strict label order and merges label set by label set |
| `Merging.RewrittenExactly` | compact.go:606-625 | deciding by the first and the last interval of a sorted list is right for every chunk if and only if the last one reaches furthest |
| `Merging.RewritingMissesSome` | compact.go:608-612 | with overlapping intervals a deleted sample can survive: a concrete chunk |
| `Populating.MergedRow` | compact.go:793-833 | a merged series has the chunks of all blocks in order, and its intervals cover what any block has deleted |
| `Populating.RowHoldsWanted` | compact.go:587-626 | its rewritten chunks hold, block after block, exactly the samples not deleted |
| `SeriesSets.SeriesSet.NextInBlock` | compact.go:706-746 | drops chunks that one interval covers and nothing else |
| `SeriesSets.SeriesSet.NextMerged` | compact.go:793-833 | the look-ahead merger delivers the merged rows although its operands overwrite the row they have handed out |
| `SeriesSets.RewriteChunk` | compact.go:606-625 | a chunk is encoded again by iterating around the intervals, and keeps its times |
| `SeriesSets.PopulateBlock` | compact.go:526-663 | fails exactly if there is no block or a chunk reaches beyond the new block's extent; otherwise writes the rows that have chunks left, none without chunks and no chunk outside the extent |
| `SeriesSets.CompactionPreserves` | compact.go:526-663 | for consecutive blocks with sorted intervals, or a single block such as the head whose intervals may reach beyond it: it succeeds, series are in strict label order, and each holds exactly the samples its blocks have not deleted; every chunk keeps its times, its place and what is left of its samples, and is dropped if and only if a single interval of its block takes all of it |
| `IndexFormat.FrameBack` | index/index.go:712-731 | a section with its length in front and its checksum behind reads back if and only if its length fits into 32 bits |
| `IndexLaws.FrameExactly` | index/index.go:712-731 | for any bytes: a section is read if and only if it stands there with its length and the checksum of its contents |
| `IndexFormat.VarFrameBack` | index/index.go:736-761 | a series entry reads back if and only if its length fits into five groups of seven bits; otherwise nothing is read |
| `IndexLaws.SeriesFrameStands` | index/index.go:736-761 | for any bytes: what is read of a series is followed by its checksum |
| `IndexFormat.SymbolsBack` | index/index.go:766-796 | the symbol table reads back: the i-th string has number i |
| `IndexFormat.ChunksBack` | index/index.go:1068-1100 | references and times of all chunks come back from 64-bit wrap-around differences, for any 64-bit references and times |
| `IndexFormat.SeriesEntryBack` | index/index.go:1037-1101 | a series entry reads back with its labels and chunks if and only if the reader's table has each symbol where its number says |
| `KnownBytes.SeriesEntryBytes` | index/index.go:284-318 | the bytes of a concrete series entry |
| `IndexTables.PostingsBack` | index/index.go:1029-1034 | four-byte numbers come back as they were written |
| `IndexTables.ValuesBack` | index/index.go:852-880 | a label index reads back if and only if the reader's table has its symbols where their numbers say |
| `IndexTables.TableBack` | index/index.go:800-821 | a table of offsets reads back, entry by entry with all keys |
| `IndexTables.OffsetIsLast` | index/index.go:638-644 | among entries with the same keys the last one counts |
| `IndexTables.TOCBack` | index/index.go:686-707 | behind any bytes at all, the table of contents reads back |
| `IndexLaws.ContentsExactly` | index/index.go:686-707 | for any bytes: the table of contents is read if and only if its checksum is right |
| `KnownBytes.ContentsBytes` | index/index.go:436-449 | which of the six positions stands where |
| `IndexSorting.AgreesExactly` | index/index.go:335-366 | numbers taken from one sorted list are right for another table if and only if the list is a prefix of the table |
| `IndexSorting.SortedNumbers` | index/index.go:468-485 | different series positions are sorted into a strictly increasing list of exactly these |
| `IndexContents.LaidMore` | index/index.go:183-199 | whatever is written later, the sections written before stay in place and keep their meaning |
| `IndexEncoding.EncodeSeries` | index/index.go:284-318 | the loops over labels and chunks yield exactly the entry, and fail exactly if a symbol is unknown |
| `IndexWriter.Writer.EnsureStage` | index/index.go:213-250 | stages can be skipped but never reentered; entering one marks its section in the table of contents |
| `IndexWriter.PaddingExactly` | index/index.go:201-209 | as many zeros as are missing to the next multiple, and no more |
| `IndexWriter.Writer.AddSymbols` | index/index.go:335-366 | fails exactly in a later stage or beyond 64 GiB; numbers the sorted symbols; only the first table becomes the one that readers will see |
| `IndexWriter.Writer.AddSeries` | index/index.go:261-333 | fails exactly for a wrong stage, a label set not after all others, a used reference, an unknown symbol or a file beyond 64 GiB; otherwise the series is at a new multiple of 16, behind all others, and nothing else changes; after an unknown symbol the writer can go on, with a stale position noted for the reference |
| `IndexWriter.Writer.WriteLabelIndex` | index/index.go:368-412 | the same for the sorted values of one label; after an unknown value the entry stays without an index |
| `IndexWriter.Writer.WritePostings` | index/index.go:451-501 | fails exactly for a wrong stage, a series never added or a file beyond 64 GiB; otherwise writes the sorted positions of the listed series; after an unknown series the entry stays without a list |
| `IndexWriter.Writer.Close` | index/index.go:233-245 | finishes the file with both tables and the table of contents, unless it gets too long; nothing written before changes |
| `IndexReader.LoadTOC` | index/index.go:686-707 | reads the last 52 bytes, with their checksum |
| `IndexReader.ReadOffsetTable` | index/index.go:800-821 | the loop with its sticky error yields exactly the entries, or fails if some cannot be read or have another number of keys |
| `IndexLaws.BadTableRefused` | index/index.go:800-821 | one entry that cannot be read, or has another number of keys, spoils the table, whatever entries come before it |
| `IndexLaws.EntriesHaveWidth` | index/index.go:800-821 | for any bytes: all entries that are read have the right number of keys, and there are no more than announced |
| `IndexLaws.BadSymbolsRefused` | index/index.go:766-796 | one string that cannot be read spoils the symbol table |
| `IndexReader.DecodeSeries` | index/index.go:1037-1101 | for any bytes: the loops return exactly what the specification reads; a count that cannot be read ends them without error, and one that is negative as an int skips them |
| `IndexLaws.BadLabelRefused` | index/index.go:1044-1062 | one symbol number that cannot be read, or that no symbol has, spoils the series, whatever labels come before it |
| `IndexLaws.BadChunkRefused` | index/index.go:1082-1099 | the same for a chunk that cannot be read |
| `IndexLaws.SeriesHasSymbols` | index/index.go:1044-1062 | for any bytes: the labels of a series come from the symbol table |
| `IndexReader.NewReader` | index/index.go:601-655 | opens exactly the files with a right header and readable table of contents, symbols and tables, and maps names and pairs to their last offsets |
| `IndexLaws.OpenChecks` | index/index.go:601-655 | for any bytes: a file that opens has the right header, and its table of contents and the sections that this points to have their checksums |
| `IndexLaws.HeaderExactly` | index/index.go:613-622 | the five bytes that an index file begins with |
| `IndexReader.Reader.Series` | index/index.go:898-910 | the entry at 16 times the id |
| `IndexReader.Reader.Postings` | index/index.go:913-930 | the numbers on the list of a label pair, none if there is no list |
| `IndexReader.Reader.LabelValues` | index/index.go:852-880 | the values of a name, looked up in the table, none if there is no index |
| `IndexRoundTrip.IndexReadsBack` | index/index.go:601-655 | a finished file opens; every series reads back under its id with labels and chunks, every postings list under its pair and every label index under its name |
| `IndexContents.NothingElseFound` | index/index.go:852-930 | names and pairs for which nothing was written read as no values and no series |
| `IndexRoundTrip.ListOfSeries` | index/index.go:464-480 | the ids on a list of different series are strictly increasing from 1 on, are exactly their positions, and follow the order of their label sets |
| `IndexRoundTrip.SecondTableMisleads` | index/index.go:335-366 | after a second call of AddSymbols a series can read back with other labels: a concrete table |
| `IndexRoundTrip.ReadSeriesBack` | index/index.go:898-910 | from a closed writer to a new reader: the series that was added comes back |
| `IndexRoundTrip.ReadPostingsBack` | index/index.go:913-930 | from a closed writer to a new reader: the list that was written comes back |

## Left out

- `IndexReader.NewReader`: refuses files of version 1, which the original still opens but does not write.
- Label indexes for several names, and the ranges of postings lists.
- Files, directories, fsync, mmap and renames: a disk is a sequence of segments or a map from ids to blocks, and creating or removing a directory is one step.
- Aliasing of byte slices: chunk bytes shared between an appender and an iterator, record buffers reused after a flush and Go slices with common backing arrays are values here; only the rows that series sets hand out are modelled as shared memory.
- Checksums, regular expressions and hashes: arbitrary functions and predicates.
- Reading malformed bytes: eight-byte numbers with four to seven bytes left, and string or label counts beyond the buffer, make the original panic and are errors here.
- Read errors of an index, of chunks or of tombstones during queries and compactions.
- The conflict of an id with another label set in the head's series map during concurrent creation: series are registered by the replay reader alone.
- The order of ids in a query on the head: its `SortedPostings` sorts them by labels, a block's index returns them as they are, and the latter is modelled.
- `MemPostings` before `EnsureOrder`: only the ordered mode is modelled.
- Retention; of a compaction, the symbols and label indexes it writes, its statistics, and the level beyond its number.
- `Compaction.Plan`: takes blocks that do not overlap, as loading them ensures, and compares the share of tombstones as a real number, without floating-point rounding.
- `Reload.ReloadIsSafe`: a directory is there or not; half-deleted directories and failing deletions without a crash are not modelled.
- `ReplayRuns.RunIsSequential`: a worker's last swap and the closing of its channel are one step; for a log that ends in an error only the head's times are stated, in `ReplayEnds.FailedLoadKeepsTimes`.
- `HeadSeries.MemSeries.Append`: a chunk is the sequence of its samples; that its bytes hold them is stated for `XorChunks.XorAppender.Append`. The chunk that a reader has already fetched is a value.
- `XorChunks.XorIterator.Next`: for bytes that no appender has written it states the outcome in terms of the decoding function only.
- `SeriesSets.PopulateBlock`: the rows of a block stand for its index, chunks and tombstones, read together.
- `Checkpointing.CheckpointPreservesReplay`: assumes that no sample from the checkpoint's time on belongs to a dropped series.
- `IndexWriter.Writer.AddSeries`: after a file that became too long nothing is said about the writer; after an unknown symbol its state is stated, but what is written to it later under the stale reference is not followed.
- `IndexWriter.Writer.WriteLabelIndex`: the file that is written on after an unknown value, with an entry for an index that is not there, is not followed.
- `IndexWriter.Writer.WritePostings`: takes the references that the iterator delivers as a list, without the iterator's own errors; the file that is written on after an unknown reference is not followed.
- `IndexRoundTrip.IndexReadsBack`: postings lists and label indexes longer than 32 bits can tell are excluded by the condition that `FrameBack` shows to be exact.
- `PostingsLists.Postings.Seek`: targets from 1 on, and below 2^32 if a numbered list is in the tree; for a single list the larger ones are covered by `SeekInList`.
- `WalReader.Repair`: not for a segment on which the reader panics, as the original then panics too.
- `WalTorn.TornPageReads`: zeros that complete a torn fragment may be read as the rest of a record if the checksum happens to match; how many such records there are is not stated, as the checksum is arbitrary.
- `HeadStates.CommitHolds`: a commit is one step, as are the writing of a block and a truncation; the log that a commit writes first is `Wal` and `Records`.
- `Heads.Head.Truncate`: keeps series without chunks in the map, where the original removes them unless a commit is pending; a series that was removed under another open appender is not modelled. The log's own truncation is in `CheckpointDisk`.
- `Heads.Head.GetOrCreate`: a series is given by its reference instead of the hash and the labels.
- `HeadCompaction.RunConserves`: deletions on the head are not among the steps. What a restart yields is a condition: the samples from the last block's end on and at least the old newest time, as sequential replay of an intact log gives them; a log that has lost its tail is not covered.
- `HeadBlocks.NothingIsLost`: runs in which an appender is open that still takes samples of a window when its block is written are excluded; `EarlyAppenders` shows what happens in them. A block's directory appears in one step.
- `HeadSeries.HandOver`: one series; the whole head is in `HeadCompaction`.
- `IndexReader.Reader.LabelValues`: an index with another number of names than one is an error, where the original returns tuples of that many names.
