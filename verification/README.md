# A verified model of the backup store

The repository is a deduplicating, delta-compressing backup store. A chunker cuts files and tar
archives into chunks and queues them. A trace processor finds duplicates by fingerprint and similar
chunks by features, and stores every new chunk raw, as an LZ4 block, or as a delta against a stored
base. Chunks are packed into containers, containers are cached, and recipes say which chunks make up
a file.

This project models that path in Dafny and proves the claim the program exists for: what
`restoreFile` and `restoreHeaderFile` write is what was chunked. The vendored parts it depends on
(LZ4, xxHash, the lock-free queue) are modelled and proved in full depth.

| files | what they model |
|---|---|
| Bytes, Words | bytes, joined pieces, machine words as numbers |
| Lz4Format, Lz4Copy, Lz4Decoder, Lz4Greedy, Lz4Compressor, Lz4RoundTrip | the LZ4 block format (a grammar and a byte-at-a-time reference decoder), the copy loops, the optimised decoder, what the compressor searches for (a function of the input), the compressor, both together |
| PowerOfTwo, SpscQueue, SpscProof, SpscTheorems, SpscBounded, SpscZeroCapacity | the single-producer single-consumer queue as a two-thread transition system, its invariant, its theorems, its bound without allocation, and the one capacity for which it fails |
| BlockingQueue, MessageQueue | the semaphore on top of the queue, and the shutdown protocol |
| LruCache, ContainerCache, ChunkStore, DataWrite | the LRU cache, the container cache with its slots, what stored bytes mean, the store object and restore |
| AbsMethod, FinesseOutcome, Finesse, PalantirIndex, PalantirOutcome, Palantir | the trace processors, and what decides whether they keep a chunk |
| FastCdc, Chunking | cut points, windowed reading |
| Tar, TarTrace, TarSplit, TarMerge, TarRestore, TarWindows, TarClipped | tar archives, what splitting in windows makes of any file, the splitter, what the reader makes of any two recipes, the reader, when windows do no harm, and an archive that they change |
| XxHash, XxHashColumns, XxHashDigests, RollingHash, Odess | streaming hashes, a second definition of them, some digests, rolling hashes, the Migratory regrouping |
| EndToEnd | whole backup runs: file in, file out, also through the queue |

Pointers are indices. Where a pointer can go stale, as with cache slots, it stays a pointer (`Ptr`)
and its bytes are read in the memory of the moment. Signed, unsigned and wrapping arithmetic is
written out where it can matter: 32-bit length fields in LZ4, 64-bit size fields in tar headers, the
hashes. I/O becomes parameters and results: files are byte sequences, the disk is a map from
container ids to bytes.

## Assumptions

- xdelta is a pair with `decode(encode(t, b), b) == t` (`ChunkStore.Lossless`); nothing is assumed
  about the length of a delta.
- The fingerprint tells the contents of a run apart (`AbsMethod.Separates`). Features are arbitrary
  functions of the content.
- The queue and the semaphore run under sequential consistency, one shared access per step.
- A chunk's recipe list depends on its content only (`isHeader` in `AbsMethod.Fits`): no data chunk
  repeats a header chunk. The store files a duplicate under the stored copy's flag.

## Findings

- `ReaderWriterQueue(0)` with `enqueue` comes to fail an assertion of `try_dequeue`; every capacity of
  at least 1 is sound (`SpscZeroCapacity.SoundIffNonZero`).
- In Finesse a delta longer than its chunk is copied over a buffer of the chunk's size; the model ends
  such a run with the outcome `Overrun`. A run is free of it exactly if every delta it makes fits its
  target (`FinesseOutcome.KeptIff`). `FinesseOutcome.TwoChunks` says exactly when the second of two
  chunks overruns, and `FinesseOutcome.DeltaCanOverrun` gives a lossless codec and two chunks of 577
  bytes whose features in `GetSF` are the same. In Palantir it cannot happen, because the average LZ4
  ratio never falls below 1.
- A Palantir lookup can meet a bucket that `CleanIndex` emptied and then reads an element that is not
  there; the model calls this `NoEntry`. `PalantirIndex.EmptyBucketIff` says exactly when,
  `PalantirOutcome.FourFilesAnswer` that it takes more than four files, and
  `PalantirOutcome.FifthFileIff` exactly which chunk of a fifth file does it: one that shares features
  of tier 3, and of no other, with a chunk of the first file.
- In tar mode sixteen full containers with their headers are 8192 bytes longer than the 64 MiB that a
  window keeps in reserve. In an archive of more than one window, 192 MiB, the window end then clips a
  payload, and the rest of it is parsed as headers. The archive still comes back item for item exactly
  if every block taken for a header has behind it what it announces to the reader
  (`TarMerge.ReturnIff`); `TarClipped.ArchiveChanged` gives one that comes back with a payload and its
  header exchanged. A well-formed archive of less than 192 MiB always comes back
  (`TarWindows.OneWindowReturns`), and those of any length with payloads of at most n bytes all come
  back if and only if n is less than a container (`TarClipped.SafeIff`).
- The two copies of `CutPointTarFast` read an AREGTYPE header differently; they agree exactly if the
  header has no size (`Tar.HeadsAgree`).
- In LZ4 blocks of more than 16,843,017 bytes a length field that the decoder reads to its end can wrap
  in 32 bits, in shorter ones it cannot (`Lz4RoundTrip.LengthsExactIff`); such a block decodes to 19
  bytes where it announces 2^32 more (`Lz4RoundTrip.LengthWraps`). At this bound the match has offset 0,
  which the format does not allow and the decoder accepts. Offsets of the format need a literal before
  the first match, and with it the bound is 16,843,018.
- `getFeatureList` never records the last window of a chunk (`NTransform.FeatureGen.Fingerprints`).
- Under the default sizes the first loop of FastCDC never runs (`FastCdc.DefaultsHaveNoNormalPhase`).

## Model

| member | source | states |
|---|---|---|
| Lz4Format.BlockDecodes | src/util/lz4.c:2238-2825 | a block in the format grammar decodes, byte at a time, to exactly its data, for every capacity that holds it, and a conforming decoder must accept it |
| Lz4Format.DecodeAll | src/util/lz4.c:2238-2825 | decoding a sequence list followed by any tail is decoding the tail after the expansion of the list |
| Lz4Format.ReadLengthBytes | src/util/lz4.c:2203-2230 | runs of 255 closed by a smaller byte read back as the length they were written for |
| Lz4Format.RepeatsIsCopy | src/util/lz4.c:2763-2807 | bytes that repeat at distance `offset` are what the byte-at-a-time overlapping copy produces |
| Lz4Copy.WildCopy8 | src/util/lz4.c:427-440 | the 8-byte stride copies at least the requested bytes, overshoots by less than a stride, and keeps the period of an overlapping match |
| Lz4Copy.WildCopy32 | src/util/lz4.c:491-506 | the same for the 32-byte stride |
| Lz4Copy.FirstEight | src/util/lz4.c:462-489 | for offsets below 8 the inc32/dec64 tables leave a match pointer at a multiple of the offset, so the first eight bytes continue the pattern |
| Lz4Copy.CopyUsingOffset | src/util/lz4.c:508-544 | for every offset the pattern copy fills the match with the overlapping repetition, writing nothing beyond its margin |
| Lz4Copy.SafeMatchCopy | src/util/lz4.c:2763-2807 | the match copy of the safe loop gives the repetition and stays inside the output |
| Lz4Decoder.ReadVariableLength | src/util/lz4.c:2203-2230 | the length reader, with its two kinds of bounds checks and 32-bit sum, agrees with the reference length |
| Lz4Decoder.FastLiterals | src/util/lz4.c:2312-2389 | literals of the fast loop: same output prefix as the reference, or a hand-over to the safe loop |
| Lz4Decoder.FastMatch | src/util/lz4.c:2391-2513 | a match of the fast loop, with stripes and over-copying, gives the reference output prefix |
| Lz4Decoder.SafeToken | src/util/lz4.c:2517-2585 | the two-stage shortcut of the safe loop gives what the long way would |
| Lz4Decoder.SafeLiterals | src/util/lz4.c:2587-2666 | literals near the end, the end-of-block test and its error cases |
| Lz4Decoder.SafeCopy | src/util/lz4.c:2688-2810 | matches near the end, including those that end within the last margin |
| Lz4Decoder.DecompressSafe | src/util/lz4.c:2238-2825 | if the optimised decoder accepts, its output is what the reference decoder gives; and it accepts every block that keeps the end-of-block restrictions |
| Lz4Compressor.HashPosition | src/util/lz4.c:950-955 | the hash of a position, by its formula; a valid table index |
| Lz4Greedy.EqualBytesEqualHash | src/util/lz4.c:927-955 | positions whose eight bytes are equal have equal hashes, in both tables |
| Lz4Compressor.PutIndex | src/util/lz4.c:988-1013 | one entry of the table changes, and no truncation of it happens |
| Lz4Compressor.EntryStored | src/util/lz4.c:988-1053 | the table keeps holding, for every hash, the position stored last under it |
| Lz4Compressor.Count | src/util/lz4.c:795-840 | the result is the length of the longest common prefix up to the limit |
| Lz4Compressor.FindMatch | src/util/lz4.c:1240-1350 | nothing is found exactly if for none of the probed positions the latest stored position with the same hash is at most 65535 bytes back and equal in four bytes; otherwise the first such probe and that position, and the table after it |
| Lz4Greedy.SearchIsFirst | src/util/lz4.c:1273-1350 | the search function gives the first probe that hits |
| Lz4Greedy.ProbesStart | src/util/lz4.c:1275-1288 | at acceleration 1 the first 66 probes leave no position out |
| Lz4Compressor.CatchUp | src/util/lz4.c:1353-1359 | the match is extended backwards as far as the bytes agree and the anchor and the start allow |
| Lz4Compressor.EncodeMatchLength | src/util/lz4.c:1454-1502 | the match length bytes, written in fours and 255s, are the format's, or the budget check refuses |
| Lz4Compressor.TestNext | src/util/lz4.c:1509-1584 | the position after a match is taken exactly if the latest stored position with its hash is in reach and equal in four bytes, and both positions are stored in the table |
| Lz4Compressor.MatchEnd | src/util/lz4.c:1430-1446 | a match ends where the repetition does, or at the last literals |
| Lz4Compressor.AddSequence | src/util/lz4.c:1359-1502 | one more encoded sequence extends the block and the text it expands to |
| Lz4Compressor.EncodeMatches | src/util/lz4.c:1394-1584 | the chain of matches up to the next search: what is out and what the search will still give stay the block of the greedy parse, and a refusal means that this block does not fit |
| Lz4Compressor.EncodeLastLiterals | src/util/lz4.c:1587-1623 | the last literals close the block, or the budget check refuses exactly what does not fit |
| Lz4Compressor.CompressGeneric | src/util/lz4.c:1153-1633 | the result is the block of the greedy parse if that fits, and 0 otherwise; nothing is written beyond the capacity; unlimited mode never fails |
| Lz4Compressor.CompressFast | src/util/lz4.c:1682-1715 | for every acceleration and budget the result is the length of the greedy block, which then stands in the buffer, or 0 if it is longer than the budget; nothing is written beyond min(budget, n + n/255 + 16); n equal bytes, 13 or more, give 10 + (n + 230) / 255 |
| Lz4Compressor.BlockIsBlock | src/util/lz4.c:1153-1633 | whatever the acceleration, the block of the greedy parse is a block for its source |
| Lz4Greedy.UniformBlock | src/util/lz4.c:1153-1633 | the block of 13 or more equal bytes: one literal, one match, the last five literals |
| Lz4RoundTrip.RoundTrip | src/util/lz4.c:1779-1798 | for every source, acceleration and budget, an accepted compression decompresses to exactly the source, for every capacity that holds it |
| Lz4RoundTrip.GreedyReadsBack | src/util/lz4.c:1779-1798 | the reference decoder reads the greedy block of a source back as the source, and a conforming decoder must accept it |
| Lz4RoundTrip.LengthsAreExact | src/util/lz4.c:2203-2230 | in a block of at most 16,843,017 bytes no length field wraps that the decoder reads to its end: a literal length after the token, or a match length after the offset |
| Lz4RoundTrip.LengthWraps | src/util/lz4.c:2203-2230 | one byte more, and it can: after any few literals and with any offset that they allow, a block that announces a match of 2^32 + 19 bytes conforms and decodes to 19 bytes between its literals |
| Lz4RoundTrip.LengthsExactIff | src/util/lz4.c:2203-2230 | no such field of any block of n bytes wraps if and only if n is at most 16,843,017, or one byte more for each literal, up to nine, that has to stand before a match |
| PowerOfTwo.SmearIsMask | include/readerwriterqueue.h:683-696 | the bit smearing of ceilToPow2 sets exactly the bits up to the highest one |
| PowerOfTwo.CeilIsLeast | include/readerwriterqueue.h:683-696 | ceilToPow2 gives the least power of two not below its argument, for every argument up to 2^63 |
| SpscProof.RefusalMeansFull | include/readerwriterqueue.h:595-666 | when the block ahead is the front block, every block but the front one is full |
| SpscProof.ProducerStoresNextTail | include/readerwriterqueue.h:600-628 | writing into the free block ahead keeps the invariant while the tail pointer still lags |
| SpscProof.ProducerLinks | include/readerwriterqueue.h:629-660 | linking a new block between tail and front keeps the invariant while the consumer may already see it |
| SpscProof.ConsumerRefreshes | include/readerwriterqueue.h:316-345 | reading the shadow tail again keeps the invariant, and an unchanged one proves the block was empty |
| SpscProof.ConsumerMovesFront | include/readerwriterqueue.h:346-380 | advancing the front block keeps the invariant; the block ahead is not empty |
| SpscProof.StepKeepsInv | include/readerwriterqueue.h:293-388 | every step of either thread keeps the invariant |
| SpscTheorems.StartInv | include/readerwriterqueue.h:105-167 | the constructor's block size and block count formulas give the invariant with room for the capacity |
| SpscTheorems.Fifo | include/readerwriterqueue.h:293-388 | in every reachable state the dequeued elements are a prefix of the enqueued ones, the rest is exactly the blocks' contents from front to tail, and no assertion has failed |
| SpscTheorems.EmptyWasEmpty | include/readerwriterqueue.h:375-384 | a dequeue that reports an empty queue was called on a queue that was empty at some moment of the call |
| SpscTheorems.RefusedWasFull | include/readerwriterqueue.h:595-666 | try_enqueue refuses only if at some moment of the call at least `capacity` elements were queued |
| SpscBounded.TryNeverGrows | include/readerwriterqueue.h:629-664 | in every run from the constructor in which every enqueue is a try_enqueue, the number and sizes of the blocks stay as built, and never more elements are queued than these have slots, less one each |
| SpscBounded.OnlyTriesAreRefused | include/readerwriterqueue.h:629-664 | a call that has ended was accepted, or it is a try_enqueue that was refused or an enqueue that found no memory |
| SpscTheorems.SizeAtRest | include/readerwriterqueue.h:509-525 | in every reachable state with the producer at rest, size_approx is the number of queued elements |
| SpscTheorems.SlotsUsedOnce | include/readerwriterqueue.h:322-336 | the consumer takes the next element from its own slot, and the producer writes no slot that still holds an element to be taken |
| SpscTheorems.BuiltHasRoom | include/readerwriterqueue.h:115-150 | the first block size computed by the constructor exceeds the requested size |
| SpscTheorems.BuiltQueue | include/readerwriterqueue.h:105-167 | all of this for the queue as ReaderWriterQueue(size) builds it, for every size from 1 that ceilToPow2 can round |
| SpscZeroCapacity.ZeroCapacityBreaks | include/readerwriterqueue.h:105-167 | a run of three enqueues and three dequeues on a queue built for 0 elements that fails an assertion |
| SpscZeroCapacity.SoundIffNonZero | include/readerwriterqueue.h:105-167 | for a queue as the constructor builds it, the assertions hold in every run if and only if the size is not 0 |
| BlockingQueue.EventKeepsOk | include/atomicops.h:646-724 | every atomic operation of signal, wait and timed wait keeps the accounting of counts and kernel tokens |
| BlockingQueue.WaitsAreBacked | include/readerwriterqueue.h:817-980 | over all interleavings: successful waits never exceed signals, signal never sees a count below -1, there is at most one kernel token, and every try_dequeue after a successful wait succeeds |
| MessageQueue.ReceiverKeepsOk | src/method/Finesse.cc:32-41 | testing done_ before IsEmpty: once both hold nothing is left in the queue |
| MessageQueue.NothingLost | include/messageQueue.h:74-126 | whenever the consumer has left its loop it has processed every pushed chunk exactly once, in order |
| MessageQueue.NothingLostOverFiles | src/method/Finesse.cc:32-38 | with done_ reset between files, any number of files on one queue: all chunks popped once, in order |
| MessageQueue.EachFileArrives | src/method/Finesse.cc:32-41 | what is popped in the round of a file is that file's chunks, whole and in order, under every schedule |
| LruCache.Cache.InsertValue | include/lruCache.h:124-137 | the new list and map after an insert, with pruning |
| LruCache.Cache.GetValue | include/lruCache.h:155-165 | a hit moves the key to the front; a miss is an error and changes nothing |
| LruCache.Cache.Prune | include/lruCache.h:213-228 | the prune loop keeps exactly the first `maxSize` keys once the limit is reached |
| LruCache.HoldsMostRecent | include/lruCache.h:124-229 | after any run without elasticity, as the container cache uses it, the cache holds exactly the most recently used keys, in order of last use |
| ContainerCache.ReadCache.InsertToCache | src/util/readCache.cc:26-44 | the new pool for any name; the slots stay in step if and only if the name was new or its own slot was the one to go |
| ContainerCache.LoadKeeps | src/util/readCache.cc:26-44 | names keep distinct slots, and loading a container changes no other cached container |
| ContainerCache.LoadOkIff | src/util/readCache.cc:26-44 | inserting keeps distinct slots exactly then; otherwise a slot is lost or shared |
| ContainerCache.PointerStays | src/util/readCache.cc:53-57 | a pointer from ReadFromCache stays good through the next 63 cache operations on other names |
| ContainerCache.PointerDies | src/util/readCache.cc:26-57 | after 64 loads the name is dropped, and the last loaded container is in its slot |
| ContainerCache.StepKeepsFront | src/util/readCache.cc:26-57 | no single operation touches the slot of the name used last |
| ChunkStore.PutKeeps | src/datawrite/datawrite.cc:113-175 | storing a chunk, with or without rolling the container over, moves no stored byte, and the new bytes are where the entry says |
| ChunkStore.PutMeans | src/datawrite/datawrite.cc:113-252 | every chunk stays decodable: raw, LZ4, or a delta on a base that is not a delta, with its id as index |
| ChunkStore.LoadAgrees | src/datawrite/datawrite.cc:529-534 | caching a container keeps every cached container equal to its file |
| ChunkStore.RollAgrees | src/datawrite/datawrite.cc:124-159 | and so does storing a chunk |
| ChunkStore.SlotHolds | src/datawrite/datawrite.cc:469-496 | the bytes of a chunk in a cache slot are its stored bytes |
| DataWriter.DataWrite.ChunkInsert | src/datawrite/datawrite.cc:113-175 | the whole new store after inserting a raw chunk or a delta |
| DataWriter.DataWrite.ChunkInsertLz4 | src/datawrite/datawrite.cc:177-252 | the whole new store after inserting a compressed chunk |
| DataWriter.DataWrite.RecipeInsert | src/datawrite/datawrite.cc:578-582 | the chunk id is appended to the recipe of the current file |
| DataWriter.DataWrite.RecipeHeaderInsert | src/datawrite/datawrite.cc:584-588 | the same for the header recipe |
| DataWriter.DataWrite.GetChunkInfo | src/datawrite/datawrite.cc:455-570 | by cache, disk or current container the pointer gives the same bytes; memory must be freed exactly if it was allocated; the last used cache slot is untouched |
| DataWriter.DataWrite.GetBase | src/datawrite/datawrite.cc:407-417 | loading the base leaves the delta's pointer readable with the same bytes |
| DataWriter.DataWrite.RestoreChunk | src/datawrite/datawrite.cc:405-432 | any stored chunk is rebuilt with one level of delta decoding |
| DataWriter.DataWrite.RestoreFile | src/datawrite/datawrite.cc:387-436 | the output is the contents of the recipe's chunks, joined; a file without a recipe comes out empty |
| AbsMethod.BaseBalances | src/method/Finesse.cc:91-101 | a new base keeps the counters exact: what LZ4 saves is the difference of full and stored sizes of the bases, what deltas save that of the deltas, and what duplicates save is the rest of the logged bytes |
| AbsMethod.DeltaBalances | src/method/absMethod.cc:352-359 | so does a new delta |
| AbsMethod.DedupBalances | src/method/Finesse.cc:142-153 | and a duplicate |
| AbsMethod.ReductionsAddUp | src/method/Finesse.cc:91-153 | logged bytes = stored bases + stored deltas + dedup + delta + local reduction |
| AbsMethod.FpPush | src/method/absMethod.cc:91-110 | the fingerprint index keeps naming exactly the stored chunks, so no content is stored twice |
| AbsMethod.LogPush | src/method/Finesse.cc:148-151 | entering a chunk in a recipe extends what the recipe resolves to by that chunk |
| AbsMethod.LogGrows | src/method/Finesse.cc:96-99 | storing further chunks changes no recipe's meaning |
| AbsMethod.ChunksOfRun | src/datawrite/datawrite.cc:578-588 | the recipe of a file holds its own chunks and none of the other files' |
| AbsMethod.Processor.FpFind | src/method/absMethod.cc:91-104 | a hit names a stored chunk with that fingerprint; a miss means there is none |
| AbsMethod.Processor.CompressChunk | src/method/Finesse.cc:70-85 | LZ4 under the chunk's own size as budget: the size of its greedy block, or the raw chunk exactly if that is longer |
| AbsMethod.Processor.StoreBase | src/method/Finesse.cc:68-102 | a new base is appended and counted, with the size and the flag that LZ4 gives it and no base of its own; everything else stays |
| AbsMethod.Processor.StoreDelta | src/method/Finesse.cc:124-141 | a new delta is appended and counted, with its flag, the id of its base and the size of the delta; everything else stays |
| AbsMethod.Processor.EncodeAgainst | src/method/Finesse.cc:109-111 | the delta is taken against the base's original content |
| AbsMethod.Processor.Record | src/method/Finesse.cc:148-153 | the chunk goes to the recipe of its stored copy's kind, and the logical counters grow |
| AbsMethod.Processor.RecordDuplicate | src/method/Finesse.cc:142-153 | a duplicate adds its size to the reduction and an entry to the recipe, and nothing else |
| AbsMethod.Processor.Restore | src/datawrite/datawrite.cc:387-436 | restoring any file of a run gives the data chunks logged for it |
| FinesseMethod.Finesse.SfFind | src/method/absMethod.cc:223-236 | the newest chunk of the first bucket that exists, always a base; or no bucket exists |
| FinesseMethod.Finesse.SfInsert | src/method/absMethod.cc:238-247 | the chunk joins the bucket of each super-feature, buckets hold bases only |
| FinesseOutcome.BaseForIff | src/method/absMethod.cc:223-236 | a base is found exactly if one of the three buckets exists, and it is the newest of the first of them |
| FinesseOutcome.ThreeChunks | src/method/Finesse.cc:41-137 | of two stored chunks without a common super-feature, a third is encoded against the one that shares its first super-feature, else its second, else its third |
| FinesseMethod.Finesse.ProcessDelta | src/method/Finesse.cc:103-137 | kept, failed or overrun, exactly by the length of the delta; a kept one is stored with the flag of a delta, the id of its base and the size of the delta |
| FinesseOutcome.RunConcat | src/method/Finesse.cc:23-159 | the outcome of two traces in a row is that of the first, unless it keeps everything |
| FinesseOutcome.KeptIff | src/method/Finesse.cc:103-137 | a run keeps every chunk if and only if each delta it makes has a byte and fits its target; the pairs it encodes are given |
| FinesseOutcome.TwoChunks | src/method/Finesse.cc:103-137 | of two chunks the second overruns its buffer if and only if they share a super-feature and its delta against the first is longer than it |
| FinesseOutcome.DeltaCanOverrun | src/method/Finesse.cc:112-126 | a lossless codec and two chunks of 577 bytes with the same twelve features, with which the second delta overruns its buffer by one byte |
| FinesseMethod.Finesse.ProcessChunk | src/method/Finesse.cc:41-154 | the outcome is an exact function of contents, chunk size, base found and delta length; a kept new chunk is stored as a delta against the base found, with the delta's size, or without one as a base, and the counters grow by it |
| FinesseMethod.BooksGrow | src/method/Finesse.cc:91-153 | one more entry is one more delta or one more base in the counters, with its stored size |
| FinesseMethod.Finesse.ProcessTrace | src/method/Finesse.cc:23-159 | the exact outcome of a trace; a kept one leaves exactly its chunks in the recipes of the file, in order, one delta for every pair that the run encodes, one base for every other new chunk, and in the counters the sum of their sizes |
| FinesseOutcome.BookedConcat | src/method/Finesse.cc:91-153 | the counters of two traces in a row are those of the joined trace |
| PalantirIndex.PutAllHolds | src/method/palantir.cc:216-255 | the inserted chunk is alone in its buckets and no other bucket changes |
| PalantirIndex.PutCounts | src/method/palantir.cc:221-228 | SFNew grows by one exactly when a bucket comes into use |
| PalantirIndex.SfInsert | src/method/palantir.cc:216-255 | SFNew - SFDelete stays the number of buckets in use |
| PalantirIndex.SfFind | src/method/palantir.cc:183-214 | tiers in order, all thirteen super-features in each; a found chunk is a base |
| PalantirIndex.EmptyBucketIff | src/method/palantir.cc:183-214 | a lookup reads a missing entry if and only if tier 1 has no bucket and the first bucket found in tier 2, or in tier 3 if tier 2 has none, was emptied |
| PalantirIndex.EmptiedWasDeleted | src/method/palantir.cc:257-283 | which needs an earlier removal by CleanIndex |
| PalantirIndex.CleanTier | src/method/palantir.cc:260-280 | expired buckets are emptied and counted, the others stay |
| PalantirIndex.CleanIndex | src/method/palantir.cc:257-283 | what is left in tiers 2 and 3 is at most 5 and 2 versions old, and the counting invariant holds |
| PalantirMethod.RatioAtLeastOne | src/method/palantir.cc:98-101 | LZ4Ratio, over the reals, never falls below 1 |
| PalantirMethod.AcceptedFits | src/method/palantir.cc:79-118 | an accepted delta is never longer than its chunk |
| PalantirMethod.PaysIff | src/method/palantir.cc:79-101 | the test of the delta's ratio against LZ4Ratio is one on whole numbers: chunk size times stored bytes of the bases is at least delta size times their full bytes |
| PalantirMethod.Palantir.ProcessDelta | src/method/palantir.cc:68-121 | kept unless the delta is empty; stored as a delta with its flag, base and size exactly if |chunk| * basechunkSize >= |delta| * basechunkOriSize, else as a base with the size LZ4 gives it |
| PalantirMethod.Palantir.ProcessDuplicate | src/method/palantir.cc:156-175 | a known base refreshes its buckets, the recipe grows |
| PalantirMethod.Palantir.ProcessChunk | src/method/palantir.cc:41-175 | outcome and next state are exact functions of contents, indexes, ratio and delta length, and so is the entry of a new chunk; it never overruns |
| PalantirMethod.Palantir.CloseVersion | src/method/palantir.cc:31-40 | the end of a file's trace cleans the index and steps the version |
| PalantirMethod.Palantir.ProcessTrace | src/method/palantir.cc:21-181 | the exact outcome of a trace; a kept one leaves exactly its chunks in the recipes of the file, in order |
| PalantirOutcome.KeptIff | src/method/palantir.cc:41-175 | a run keeps everything if and only if at each new chunk the first bucket met in the tiers is not an emptied one, and the base found, if any, gives a delta that is not empty |
| PalantirOutcome.NeverOverruns | src/method/palantir.cc:79-118 | no run overruns, and none fails for an empty delta if the codec makes none |
| PalantirOutcome.FourFilesAnswer | src/method/palantir.cc:257-283 | in a run of at most four files every lookup answers |
| PalantirOutcome.FifthFileIff | src/method/palantir.cc:198-210 | after a chunk in the first file, a chunk of the fifth reads a missing entry if and only if it shares no super-feature of tiers 1 and 2 with it, and one of tier 3 |
| PalantirOutcome.FifthFileCanFail | src/method/palantir.cc:198-210 | so it does when of all super-features only the first of tier 3 is the same |
| FastCdc.CutPointFastCDC | src/chunking/chunker.cc:183-209 | the cut is the first position where the gear hash has enough zero bits, or the longest chunk |
| FastCdc.CutIsLocal | src/chunking/chunker.cc:183-209 | a cut depends on the first maxChunkSize bytes only |
| FastCdc.GearFades | src/chunking/chunker.cc:188-206 | bytes whose gear is 0 only shift the gear hash, and 32 of them clear it |
| FastCdc.DefaultsHaveNoNormalPhase | src/chunking/chunker.cc:357-370 | with the default sizes the normal size lies below the minimum size |
| Chunking.Chunker.ChunkWindow | src/chunking/chunker.cc:114-172 | the chunks of a window are the next chunks of the whole file |
| Chunking.Chunker.Chunking | src/chunking/chunker.cc:99-181 | reading in windows and reading the rest again queues the chunks of the file cut at once: of fixed size, every chunk but the last has exactly avgChunkSize bytes and the last at least one; with FastCDC every chunk ends where the gear hash of the rest of the file says; they join to the file |
| Chunking.WholeIsFixed | src/chunking/chunker.cc:121-124 | the fixed-size chunks of a file, by their lengths |
| Chunking.WholeIsCdc | src/chunking/chunker.cc:125-128 | the FastCDC chunks of a file, by their cuts |
| Chunking.ChunksJoin | src/chunking/chunker.cc:99-181 | the chunks join to the file, none is empty, none too long |
| Tar.HeadsAgree | src/datawrite/datawrite.cc:931-953 | the two header parsers agree if and only if an AREGTYPE block has no size |
| Tar.OctalSize | src/chunking/chunker.cc:230-237 | octal digits read as their value, which cannot wrap |
| Tar.GoodLeft | src/chunking/chunker.cc:238-283 | a good header announces whole blocks, none only for size 0, and big ones only above the container size |
| TarTrace.ItemsMean | src/chunking/chunker.cc:224-335 | the items of a well-formed archive join to the archive, with payloads as their headers announce |
| TarTrace.ParseHolds | src/chunking/chunker.cc:99-181 | for any file, from any point of the parse on: header segments join to the headers taken, data chunks are the payload chunks, and together they are the rest of the file |
| TarTrace.SegmentsFit | src/chunking/chunker.cc:384-462 | segments of whole headers have at most 8192 bytes |
| TarTrace.StepKeeps | src/chunking/chunker.cc:384-506 | a step of the parser leaves the items as they would be with the archive in view at once, if and only if it clips nothing |
| TarTrace.WindowsKeepItems | src/chunking/chunker.cc:99-181 | reading a well-formed archive in windows gives its items if and only if no window end clips a header or a payload |
| TarTrace.QueueHoldsItems | src/chunking/chunker.cc:99-181 | for any file that the parser gets through, the queue holds the items it took, and they join to the file |
| TarSplit.TarChunker.CutHeader | src/chunking/chunker.cc:228-302 | the parser's state after a header block |
| TarSplit.TarChunker.CutBig | src/chunking/chunker.cc:314-333 | the next cut of a big payload is FastCDC's on what is left of it, and the last chunk ends with it |
| TarSplit.TarChunker.TakeHeader | src/chunking/chunker.cc:400-405 | a header, whole or clipped, is parsed and collected; at a window end the state is set back whatever it announced |
| TarSplit.TarChunker.TakeFile | src/chunking/chunker.cc:406-437 | the payload of a file as far as the window shows it |
| TarSplit.TarChunker.CutSegment | src/chunking/chunker.cc:384-462 | the loop over headers ends in spite of empty cuts, also where a window end falls inside, and queue and state are those of the parse |
| TarSplit.TarChunker.CutBigRun | src/chunking/chunker.cc:463-501 | the same for the run through a big payload, about one container per call |
| TarSplit.TarChunker.Chunking | src/chunking/chunker.cc:99-181 | for any file of any length the queue is exactly what the parse in windows gives, up to the place where it goes astray if it does |
| TarMerge.ReadIff | src/datawrite/datawrite.cc:281-384 | the reader writes a list of items as it was stored if and only if every header has the chunks that it takes, or no chunks are left |
| TarMerge.ReturnIff | src/datawrite/datawrite.cc:254-385 | any file split in windows comes back item for item, and then byte for byte, if and only if the parser does not go astray and every block taken for a header has what it announces to the reader |
| TarMerge.WholeReturns | src/datawrite/datawrite.cc:254-385 | a well-formed archive that no window end clips comes back |
| TarWindows.StepRoomy | src/chunking/chunker.cc:392-441 | with payloads below a container a segment keeps room for the headers it still takes and their payloads |
| TarWindows.SmallPayloadsReturn | src/chunking/chunker.cc:115-175 | if no payload fills a container, windows clip nothing, the items are those of the archive, and it comes back |
| TarWindows.OneWindowReturns | src/chunking/chunker.cc:99-181 | a well-formed archive that is read in one window, whatever its payloads: nothing is clipped, the items are those of the archive, and it comes back |
| TarClipped.ArchiveItems | src/chunking/chunker.cc:115-175 | what the parse in windows takes from an archive with a payload clipped after 4186112 of 4194304 bytes: the rest as directories and an AREGTYPE header |
| TarClipped.ArchiveChanged | src/datawrite/datawrite.cc:931-953 | that archive comes back with the header and the payload of its last file exchanged |
| TarClipped.SafeIff | src/chunking/chunker.cc:115-175 | all well-formed archives with payloads of at most n bytes come back if and only if n is less than a container |
| TarRestore.TarReader.CutHeader | src/datawrite/datawrite.cc:899-972 | the reader's parse of a header |
| TarRestore.TarReader.WriteBig | src/datawrite/datawrite.cc:351-380 | the chunks that use up the size of a big payload are taken, or it is found that none do |
| TarRestore.ItemStep | src/datawrite/datawrite.cc:311-380 | one header with its chunks leaves what there is to read of the rest |
| TarRestore.TarReader.RestoreHeaderFile | src/datawrite/datawrite.cc:254-385 | whatever the two recipes hold, what is written is what there is to read in them; the reader goes astray exactly if there is no such thing |
| EndToEnd.FinesseRun | src/method/Finesse.cc:23-159 | a whole backup run: exact outcome, log and store, and a kept one has in its counters one delta for every pair it encodes, one base for every other new chunk, and the sums of their sizes |
| EndToEnd.FinesseRestores | src/datawrite/datawrite.cc:387-436 | any file of a Finesse run that is kept restores to its data chunks, joined; and exactly when it is kept |
| EndToEnd.PalantirRestores | src/datawrite/datawrite.cc:387-436 | the same for Palantir; a run of at most four files is kept if no delta is empty |
| EndToEnd.FinesseBackup | src/method/Finesse.cc:23-159 | files, chunked by fixed size or FastCDC and kept by Finesse, come back byte for byte; the outcome is exact |
| EndToEnd.PalantirBackup | src/method/palantir.cc:21-181 | the same for Palantir, which never overruns a buffer; the outcome is exact |
| EndToEnd.FinesseArchives | src/datawrite/datawrite.cc:254-385 | any files split in tar mode and kept by Finesse: what restoreHeaderFile writes is exactly what the reader makes of the chunker's queue, and that is the archive if it is well-formed and no window end clips it |
| EndToEnd.PalantirArchives | src/datawrite/datawrite.cc:254-385 | the same for Palantir |
| EndToEnd.SmallArchivesReturn | src/datawrite/datawrite.cc:254-385 | well-formed archives, each of one window or with payloads below a container, meet all the conditions |
| EndToEnd.FinesseFilesThroughQueue | src/method/Finesse.cc:23-159 | files chunked by one thread and kept by Finesse in the other come back byte for byte, under every schedule |
| EndToEnd.PalantirFilesThroughQueue | src/method/palantir.cc:21-181 | the same for Palantir |
| EndToEnd.FinesseArchivesThroughQueue | src/datawrite/datawrite.cc:254-385 | the same for files split in tar mode: what is written is what the reader makes of the chunker's queue, and a well-formed archive that no window end clips comes back |
| EndToEnd.PalantirArchivesThroughQueue | src/datawrite/datawrite.cc:254-385 | the same for Palantir |
| XxHash.StripesConcat | src/util/xxhash.cc:581-668 | whole stripes can be taken off the front of an input |
| XxHash.OneShot | src/util/xxhash.cc:359-468 | the stripe loop of the one-shot function computes the hash |
| XxHash.Stream.Update | src/util/xxhash.cc:735-822 | after an update the state stands for everything fed so far |
| XxHash.Stream.Digest | src/util/xxhash.cc:836-915 | the digest is the hash of everything fed |
| XxHashWords.TailLoops32 | src/util/xxhash.cc:308-320 | the tail loops of XXH32 |
| XxHashWords.TailLoops64 | src/util/xxhash.cc:435-458 | the tail loops of XXH64 |
| XxHashWords.Stream32 | src/util/xxhash.cc:581-722 | XXH32: however the input is cut, streaming equals one-shot |
| XxHashWords.Stream64 | src/util/xxhash.cc:735-915 | XXH64: however the input is cut, streaming equals one-shot |
| XxHashColumns.Xxh64Is | src/util/xxhash.cc:359-468 | XXH64 defined a second time in arithmetic modulo 2^64, accumulator by accumulator down the columns of the input and tail by positions: the two definitions agree for every seed and input |
| XxHashColumns.Xxh32Is | src/util/xxhash.cc:254-332 | the same for XXH32, modulo 2^32 |
| XxHashDigests.Empty64 | src/util/xxhash.cc:428-466 | XXH64 of nothing at seed 0 is 0xEF46DB3751D8E999 |
| XxHashDigests.ZeroStripe64 | src/util/xxhash.cc:372-427 | XXH64 of 32 zero bytes at seed 0 is 0xF6E9BE5D70632CF5 |
| XxHashDigests.ZeroBytes64 | src/util/xxhash.cc:359-468 | XXH64 of 45 zero bytes at seed 0, which take every step of the tail |
| XxHashDigests.Empty32 | src/util/xxhash.cc:301-331 | XXH32 of nothing at seed 0 is 0x02CC5D05 |
| XxHashDigests.ZeroBytes32 | src/util/xxhash.cc:254-332 | XXH32 of 21 zero bytes at seed 0 |
| RollingHash.Slide | src/method/Ntrans_similarity.cc:77-82 | dropping the first byte and adding the next turns the polynomial of a window into that of the next |
| NTransform.RemoveIsNegative | src/method/Ntrans_similarity.cc:24-36 | an entry of the remove table is minus the byte's contribution modulo 2^64 |
| NTransform.FeatureGen.FillPowers | src/method/Ntrans_similarity.cc:15-23 | the power table |
| NTransform.FeatureGen.Fingerprints | src/method/Ntrans_similarity.cc:63-83 | each fingerprint is the base-257 polynomial of its window modulo 2^64; the list has chunkSize - 64 entries |
| NTransform.FeatureGen.Select | src/method/Ntrans_similarity.cc:84-100 | the fingerprint with the largest linear image, the first of several |
| FinesseFeatures.ReadsInRange | src/method/absMethod.cc:160-169 | all first windows are inside the chunk if and only if it has more than 564 bytes |
| FinesseFeatures.TwelfthsHoldWindows | src/method/Finesse.cc:56-60 | from 576 bytes on every twelfth holds a whole window |
| FinesseFeatures.RollOn | src/method/absMethod.cc:176-184 | the rolled hash is the hash of the next window modulo 1000000007 |
| FinesseFeatures.Features | src/method/absMethod.cc:160-186 | each feature is the largest window hash of its twelfth |
| OdessMethod.Odess.ProcessChunk | src/method/Odess.cc:36-56 | the groups and their order after one more chunk |
| OdessMethod.Odess.Migratory | src/method/Odess.cc:61-85 | the output is the regrouped stream |
| OdessMethod.RegroupedIsPermutation | src/method/Odess.cc:61-85 | nothing is lost or doubled |
| OdessMethod.RegroupedIsStable | src/method/Odess.cc:49-54 | within a group the order is the order of arrival |
| OdessMethod.RegroupedIsContiguous | src/method/Odess.cc:67-76 | along the output the rank of the key, in order of first appearance, never falls |
| OdessMethod.EqualKeysAdjacent | src/method/Odess.cc:67-76 | whatever stands between two chunks with the same key has that key |
| OdessMethod.SortingRecovers | src/method/Odess.cc:40-41 | sorting by chunkID gives back the input |
| OdessMethod.WritesEverything | src/method/Odess.cc:41-76 | the output has logicalchunkSize bytes |

## Left out

- LZ4 dictionary, streaming, partial and fillOutput modes, `byPtr` tables and `LZ4_decompress_fast`: the store never uses them.
- Lz4Compressor.CommonBytes: the word-wise XOR and count-trailing-zeros of `LZ4_NbCommonBytes` is modelled by its result, the first differing byte.
- Lz4Greedy.Block: the table is a fresh one, as LZ4_compress_fast has it on its stack; the 32-bit read, the address and the byte order are those of a 64-bit little-endian machine.
- `& sizeMask` in the queue is written as `% size`; block sizes are powers of two.
- Weak memory, fences, padding and `malloc` are not modelled; a failing allocation is a choice of the schedule.
- SpscTheorems.Fifo: states capacities of at least 1, with any first block larger than the capacity; SpscTheorems.BuiltQueue is the constructor's case, and for 0 see SpscZeroCapacity.
- SpscTheorems.SizeAtRest: size_approx is evaluated in one step. Its one caller is the consumer, which cannot move meanwhile.
- EndToEnd.FinesseFilesThroughQueue: speaks of schedules under which both threads leave their loops for every file; that every fair schedule is one is not shown.
- MessageQueue.NothingLost: IsEmpty is one step, which is exact because the producer has no step left when it is reached.
- XxHashWords.Stream64: words are numbers below 2^64 or 2^32; only exclusive or goes through bit vectors.
- XxHash.Stream.Update: states inputs of less than 2^64 bytes in all, the range of the one-shot function's length; beyond it `total_len` wraps.
- LruCache.Cache: list iterators in the map are represented by the keys; `remove`, `tryGet`, `clear` and the lock are not modelled.
- ContainerCache.ReadCache.InsertToCache: container names are the ids they print.
- DataWriter.DataWrite: timing and hit counters, `writing`, `writeContainers`, the Save_to_File functions and Chunk_t's stored copy of a pointer, which is never read again, are not modelled. A container file is its bytes.
- FinesseMethod.Finesse.ProcessChunk: SHA-256 is an arbitrary fingerprint function and super-features are an arbitrary function of the chunk; after DeltaError or Overrun nothing is claimed about further chunks, as the source stops or is undefined there.
- PalantirMethod.Palantir.ProcessChunk: requires a non-empty chunk, which is all the chunker produces; LZ4Ratio is a real number, so rounding is not modelled.
- FastCdc.CutPointFastCDC: the gear table is a parameter; the masks are powers of two less one, so that a mask test is a remainder test.
- Chunking.Chunker.Chunking: fixed-size and FastCDC chunks only; the gear-only mode has no longest chunk, so its cuts can depend on the window.
- TarSplit.TarChunker.Chunking: says no more of a file once the parser is astray, where the source reads beyond its buffer: a header that begins less than 157 bytes before the end of the buffer, or a big payload that the file does not hold, at which the model stops as soon as it comes to it. The plain tar mode and MTar, which write the same cuts differently, are not modelled.
- TarMerge.ReturnIff: is exact item for item. A file whose items do not match can still come back by chance, when chunks that change places hold the same bytes.
- EndToEnd.FinesseArchives: the file given to the store has no empty chunk and none longer than a container (`EndToEnd.AllCut`), which is proved for well-formed archives that no window end clips; the store's buffers hold no others.
- FinesseFeatures.Features: sorting the features in groups of three and hashing them is left out; so are the random multipliers, which the source computes but does not use there.
- TarRestore.TarReader.RestoreHeaderFile: says nothing of what is written after the reader has gone astray, and does not model that looking up a missing recipe creates an empty one, nor the size warning it prints.
- NTransform.FeatureGen: `insertSFIndex` and `querySF` have the shape of `Finesse.SfInsert` and `Finesse.SfFind`; the super-feature is XXH64 of four fingerprints, left to the caller.
- Locality, Dedup, NTrans, BiSearch, `compareNat`, directory traversal, the application mains and all logging.
