# Verification models of the tp-parsec benchmarks

A Dafny model of the algorithms at the heart of five programs of the suite, with proofs of what they are for.
`dafny verify dfyconfig.toml` checks everything. The programs are modelled over mathematical integers and
sequences; machine widths are written out where they matter (32-bit words in the Rabin fingerprint, 64-bit and
16-bit times and variable-size integers in the Matroska writer).

* **dedup, with threads** (`Pipeline*`, `Decoder`, `Chunks`): the stages Fragment, FragmentRefine, Deduplicate, Compress
  and Reorder as a transition system. One step is one region that a thread runs under a mutex or on private data; a run is
  any interleaving. The cuts are nondeterministic. `PipelineShutdown`, `PipelineConserve` (with `PipelineFlow`),
  `PipelineStore`, `PipelineOrder` and `PipelineOutput` each prove one group of invariants for all steps;
  `PipelineTheorems` draws the conclusions for all runs. In `PipelineSearch` a search decides the cuts (`CutSearch`, and
  `RabinSearch` for the one of the program), `PipelineDetermined` shows that the file then depends on the input alone, and
  `PipelineExample` that runs do finish. `Reorder` is the last stage by itself, `SerialEncoder` the version with one thread.
* **dedup, with tasks** (`TaskList`, `TaskRound`, `TaskFragment`, `TaskTable`, `TaskOutput`, `TaskFile`): the rounds of
  `encoder_task.h` in which the fragment task, refining tasks and batches splice and walk one linked list at the same time,
  fill the table of digests, and leave a file that decodes to the input.
* **The containers of dedup** (`RingQueue`, `BinHeap`, `Hashtable`, `MBuffer`) as classes updated in place.
* **The Rabin fingerprint** (`Rabin`, `RabinDivision`, `RabinRefine`): table filling and the rolling hash over words of 32
  bits, against division of polynomials over GF(2).
* **freqmine** (`Fp*`): FP-growth on a given tree. A tree is a forest of values, of which `FpForest` defines the support of a
  set; the packed array, the sort, the conditional scan with its bitmasks and its look-up table (`FpTable`) and the recursive
  miner are imperative.
* **canneal** (`AtomicSwap`, `AtomicCalls`, `Routing`): the lock-free swap of two cells with a sentinel, and the incremental cost.
* **fluidanimate** (`Barrier`, `Grid`, `GridSharing`, `CellPool`, `RebuildLayout`, `RebuildGrid`): the two-phase barrier in both
  variants, the partition of the grid and its locks, and the rebuilding of the cell chains with a pool of recycled cells.
* **The Matroska writer of x264** (`Ebml`, `EbmlValues`, `Matroska`, `MatroskaFile`, `MatroskaWriter`): the writer as a class, and a parser
  of what it writes, proved inverse to it.

Results where the code does not do what one would first expect, each with its exact condition and an input:

* The encoder builds its Rabin tables with window length 0, and the rolling hash then depends on bytes that have left the
  window unless they are zero (`Rabin.LengthZeroWindow`, `Rabin.LengthZeroDiffers`).
* The decoder decompresses into a buffer of fixed size, so it inverts the encoder exactly if every chunk fits
  (`PipelineTheorems.DecodeUndoesEncode`, `PipelineDetermined.DecodeByInput`); for every length above the buffer there is
  an input that both searches leave in one chunk, and no run of the encoder on it leaves a file that decodes
  (`PipelineDetermined.LargeInputFails`, `PipelineExample.LargeChunkFails`).
* The decoder narrows the length of a record to an int: what becomes of a record depends on the low 32 bits of its length
  (`Decoder.LongRecord`).
* SplitStream does not return when some part has no cut where the loop of its leaf looks
  (`TaskFragment.SplitReturns`), which holds of all inputs slightly longer than ANCHOR_JUMP
  (`TaskFragment.ShortTailNeverReturns`).
* The incremental routing cost is not the change of the total cost when the two elements are connected
  (`Routing.DeltaExact`, `Routing.DeltaWithoutLoops`, `Routing.ConnectedPairFails`).
* A Swap of a cell with itself never returns, and nothing else keeps calls from ending
  (`AtomicSwap.SelfSwapNeverReturns`, `AtomicSwap.AllFinishIff`, `AtomicSwap.SelfSwapExample`).
* A Matroska cluster that begins at a negative time is misread, because its time is an unsigned element, and a header that is
  written behind a cluster is not found (`MatroskaWriter.Session`, `MatroskaWriter.FinishedRecovers`,
  `MatroskaWriter.OneFrame`, `MatroskaWriter.LateHeaderSession`, `Ebml.UIntRoundTrip`).

## Model

| member | source | states |
|---|---|---|
| PipelineTheorems.DecodeUndoesEncode | pkgs/kernels/dedup/src/encoder_orig.h:1293-1651 | For every input, number of threads, choice of cuts and schedule, the records of a finished run decode to the input, exactly if every chunk fits the buffer of the decoder (lossless compressor, no digest collision among the chunks) |
| PipelineTheorems.FileRoundTrip | pkgs/kernels/dedup/src/decoder.c:173-254 | The same for the bytes of the output file, parsed by the decoder, with compressed chunks below 2 GiB (LongRecord has the others); when a chunk does not fit, the decoder ends with the decompression error and nothing else |
| PipelineTheorems.DecodeSoFar | pkgs/kernels/dedup/src/decoder.c:213-254 | In every state of every run the records written so far already decode to a prefix of the input |
| PipelineTheorems.ScheduleIndependent | pkgs/kernels/dedup/src/encoder_orig.h:265-287 | The records do not depend on the schedule: they are those the serial encoder writes for the same chunks |
| PipelineTheorems.FlushFindsCacheEmpty | pkgs/kernels/dedup/src/encoder_orig.h:1614-1643 | When Reorder leaves its main loop the cache is empty, every chunk has been written exactly once in stream order, and the bytes written are the input |
| PipelineTheorems.WrittenIsPrefix | pkgs/kernels/dedup/src/encoder_orig.h:1581-1610 | The data of the chunks written is at every moment a prefix of the input |
| PipelineTheorems.AssertionsHold | pkgs/kernels/dedup/src/queue.c:37-111 | In no run does an assertion fail: queue_enqueue on a terminated queue, queue_terminate beyond the number of producers, sub_Compress on a chunk that is no uncompressed original, a second size for one coarse piece |
| PipelineTheorems.DataFirstInEveryRun | pkgs/kernels/dedup/src/encoder_orig.h:478-515 | In every state one original chunk per digest; a record is a fingerprint exactly if an earlier record has the same digest |
| PipelineTheorems.RunInv | pkgs/kernels/dedup/src/encoder_orig.h:1664-1760 | All invariants (shutdown, conservation, headers, order, output) hold in every state of every run |
| PipelineTheorems.EndState | pkgs/kernels/dedup/src/encoder_orig.h:1507-1651 | At the end every chunk that was cut is written once, nothing is cached, and the data is the input |
| PipelineExample.SomeRunFinishes | pkgs/kernels/dedup/src/encoder_orig.h:1293-1651 | The transition system is not stuck: with one thread per pool every nonempty input up to MAXBUF in which the search finds no cut has a run with the cuts of the search through all stages to the end |
| PipelineExample.LargeChunkFails | pkgs/kernels/dedup/src/decoder.c:104-170 | The failure of the decoder: for every length above its buffer but not above MAXBUF there is an input for which the encoder, with the cuts of rabinseg, has a run to the end, and every such run, whatever the threads and the schedule, ends with a file that is refused with the decompression error |
| PipelineDetermined.CutsDetermined | pkgs/kernels/dedup/src/encoder_orig.h:1416-1469 | In every run in which a search decides the cuts the coarse pieces and the chunks are a function of the input and the search alone |
| PipelineDetermined.CutsAreFirst | pkgs/kernels/dedup/src/encoder_orig.h:1416-1469 | In every finished run, said over the bytes of the input alone: behind the beginning of a coarse piece the search starts ANCHOR_JUMP bytes further on, and there is a next piece exactly if it ends inside the input, beginning where it ends; in a piece the same holds of the chunks, with the search started at once |
| CutSearch.FirstCutsUnique | pkgs/kernels/dedup/src/encoder_orig.h:1416-1469 | No other pieces of the input, and no other chunks of a piece, do |
| CutSearch.CutsLaw | pkgs/kernels/dedup/src/encoder_orig.h:667-725 | The pieces of a string that the refinement and the serial encoder are proved to make obey this law |
| PipelineDetermined.OutputDetermined | pkgs/kernels/dedup/src/encoder_orig.h:1507-1651 | So are the records: they do not depend on the number of threads, the queues or the schedule |
| PipelineDetermined.DecodeByInput | pkgs/kernels/dedup/src/decoder.c:173-254 | The file decodes to the input exactly if every chunk of the input fits the buffer of the decoder, which is a condition on the input |
| PipelineDetermined.LargeInputFails | pkgs/kernels/dedup/src/decoder.c:104-170 | For every length above the buffer of the decoder there is an input of which no run, with any number of threads, leaves a file that decodes |
| PipelineDetermined.UncutInput | pkgs/kernels/dedup/src/encoder_orig.h:1416-1469 | For every length there is an input that Fragment and FragmentRefine leave in one chunk |
| PipelineSearch.StepSearch | pkgs/kernels/dedup/src/encoder_orig.h:667-725 | Every step keeps it that the pieces made so far are the first ones of the input, and the chunks cut from each the first ones of the piece |
| SerialEncoder.SerialIntegratedPipeline | pkgs/kernels/dedup/src/encoder_orig.h:755-963 | The serial encoder writes the records of the cuts of the input, whatever the size of its buffer |
| SerialEncoder.Archive.Add | pkgs/kernels/dedup/src/encoder_orig.h:864-882 | A chunk is looked up, compressed if it is the first with its digest, and written; the table leads to the first chunk of each digest |
| SerialEncoder.SerialDecodes | pkgs/kernels/dedup/src/decoder.c:213-254 | The decoder inverts the serial encoder exactly if every cut piece of the input fits its buffer |
| Reorder.Run | pkgs/kernels/dedup/src/encoder_orig.h:1538-1643 | The reorder stage by itself: whatever the order in which the chunks of a stream arrive, they are written once in the order of the stream and the cache is empty in the end |
| Reorder.WriteRun | pkgs/kernels/dedup/src/encoder_orig.h:1581-1611 | The writing loop writes the chunk at hand and all that follow it in the cache, although it looks up the minimum of the tree again only when a heap has become empty |
| PipelineShutdown.EnqueueSafe | pkgs/kernels/dedup/src/encoder_orig.h:447-457 | A thread that has not terminated never finds the queue it feeds terminated |
| PipelineShutdown.ReorderEnqueueSafe | pkgs/kernels/dedup/src/encoder_orig.h:588-603 | Nor does a deduplication thread that feeds the reorder queue, although it is not counted as a producer of it |
| PipelineShutdown.FragEnqueueSafe | pkgs/kernels/dedup/src/encoder_orig.h:1293-1489 | Nor does the fragmenting thread |
| PipelineShutdown.AllQuiet | pkgs/kernels/dedup/src/encoder_orig.h:1543-1549 | When Reorder has left its main loop all other threads have terminated with empty buffers and all queues are closed |
| PipelineShutdown.StepShutdown | pkgs/kernels/dedup/src/queue.c:37-111 | Every step of every thread keeps the bookkeeping of producers, terminations and private buffers |
| PipelineConserve.StepFlow | pkgs/kernels/dedup/src/encoder_orig.h:625-748 | Every step conserves chunks: each chunk is in exactly one queue, buffer, cache or output, and the bytes read are those in the pieces |
| PipelineStore.LiveKnown | pkgs/kernels/dedup/src/dedupdef.h:97-143 | A chunk in the pipeline is there once and its two-level number names it |
| PipelineStore.DedupFresh | pkgs/kernels/dedup/src/encoder_orig.h:478-515 | A chunk reaches sub_Deduplicate once, before it has a header |
| PipelineStore.CompressFresh | pkgs/kernels/dedup/src/encoder_orig.h:314-330 | A chunk reaches sub_Compress once, as an uncompressed original |
| PipelineStore.StepStore | pkgs/kernels/dedup/src/encoder_orig.h:478-515 | Every step keeps the table and headers consistent with where each chunk is |
| PipelineOrder.NextIsMin | pkgs/kernels/dedup/src/encoder_orig.h:1582-1600 | If the expected chunk is cached, it is at the minimum of the heap at the minimum of the tree, where the writing loop looks |
| PipelineOrder.CachedNotBelow | pkgs/kernels/dedup/src/encoder_orig.h:1564-1580 | No cached chunk has a number below the expected one |
| PipelineOrder.SizeSetOnce | pkgs/kernels/dedup/src/encoder_orig.h:1559-1563 | The size of a coarse piece is set once |
| PipelineOrder.StepOrder | pkgs/kernels/dedup/src/encoder_orig.h:1551-1643 | Every step keeps the output a prefix of the chunks in lexicographic order, with the expected chunk not in the cache |
| PipelineOutput.DataOnceAndFirst | pkgs/kernels/dedup/src/encoder_orig.h:265-287 | The data record of a digest is written once and before its fingerprints, also when the duplicate precedes the original in the stream |
| PipelineOutput.OrigIsOriginal | pkgs/kernels/dedup/src/encoder_orig.h:478-515 | The chunk a duplicate refers to is the original with the same digest |
| PipelineOutput.StepOut | pkgs/kernels/dedup/src/encoder_orig.h:265-287 | Every step keeps the relation between records, chunk states and digests |
| Decoder.Decode | pkgs/kernels/dedup/src/decoder.c:173-254 | The decoding loop computes the fold of one record after another, with its error cases |
| Decoder.ReadBack | pkgs/kernels/dedup/src/decoder.c:60-98 | read_chunk undoes write_file for both kinds of record |
| Decoder.RecordBytes | pkgs/kernels/dedup/src/encoder_orig.h:214-227 | A record is a type byte, 1 for data and 0 for a fingerprint, the length in eight bytes, least significant first, and the content |
| Decoder.LongRecord | pkgs/kernels/dedup/src/decoder.c:60-98 | What becomes of a data record of any length: with bit 31 of the length set the decoder gives up, with the low 32 bits zero it takes the record for the end of the file, else it decodes it |
| Decoder.DecodeSerialized | pkgs/kernels/dedup/src/decoder.c:213-254 | Decoding the bytes of a list of records is decoding the records |
| Decoder.DecodeSerial | pkgs/kernels/dedup/src/encoder_orig.h:288-303 | The decoder inverts the records of the serial encoder, data for the first chunk of a digest and fingerprints for the others, exactly if every chunk fits its buffer |
| RingQueue.Ring.Insert | pkgs/kernels/dedup/src/queue.h:95-106 | A full ring refuses; otherwise the item is the newest |
| RingQueue.Ring.Remove | pkgs/kernels/dedup/src/queue.h:75-92 | The oldest item leaves; an empty ring gives nothing |
| RingQueue.Ring.IsFull | pkgs/kernels/dedup/src/queue.h:65-72 | The modular test holds exactly if all but one slot are used |
| RingQueue.Ring.IsEmpty | pkgs/kernels/dedup/src/queue.h:60-62 | Head and tail meet exactly if there is no item |
| RingQueue.Move | pkgs/kernels/dedup/src/queue.c:66-74 | The loop of both queue operations moves the minimum of limit, supply and room, oldest first, and its assertions hold |
| RingQueue.Queue.Dequeue | pkgs/kernels/dedup/src/queue.c:49-81 | -1 exactly if the queue is empty (and then terminated), else the oldest items go over in order |
| RingQueue.Queue.Enqueue | pkgs/kernels/dedup/src/queue.c:83-111 | The items taken from the send buffer are appended in order |
| RingQueue.Queue.Terminate | pkgs/kernels/dedup/src/queue.c:37-47 | One more producer has hung up, never more than there are |
| BinHeap.PriorityQueue.Insert | pkgs/kernels/dedup/src/binheap.c:47-75 | Heap order is kept and exactly the new chunk is added, also when the array is doubled |
| BinHeap.PriorityQueue.DeleteMin | pkgs/kernels/dedup/src/binheap.c:77-102 | A chunk with the smallest number leaves, nothing else; an empty heap is left alone |
| BinHeap.PriorityQueue.FindMin | pkgs/kernels/dedup/src/binheap.c:104-110 | A chunk with the smallest number, or nothing if the heap is empty |
| BinHeap.RootIsLeast | pkgs/kernels/dedup/src/binheap.c:104-110 | In a heap no place has a smaller number than the root |
| BinHeap.UpStep | pkgs/kernels/dedup/src/binheap.c:70-73 | Moving a chunk up one level keeps the order everywhere but at its new place |
| BinHeap.DownStep | pkgs/kernels/dedup/src/binheap.c:87-99 | Moving a chunk down to its smaller child keeps the order everywhere but below its new place |
| Hashtable.Table.Search | pkgs/kernels/dedup/src/hashtable.c:241-256 | The walk over the chain, which compares hash values first, finds what the table maps the key to |
| Hashtable.Table.Insert | pkgs/kernels/dedup/src/hashtable.c:207-235 | The key is mapped to the value, all others as before, and only the chain under the lock of the key changes |
| Hashtable.Table.SearchOrInsert | pkgs/kernels/dedup/src/encoder_orig.h:478-515 | Under the lock of its chain the first chunk with a digest becomes its original for good and every later one is told which it is |
| MBuffer.Buffer.Create | pkgs/kernels/dedup/src/mbuffer.c:114-139 | A new allocation with one piece |
| MBuffer.Buffer.Split | pkgs/kernels/dedup/src/mbuffer.c:283-318 | The two pieces hold the old contents in order; the counter stays the number of live pieces, which stay apart |
| MBuffer.Buffer.Free | pkgs/kernels/dedup/src/mbuffer.c:202-231 | The allocation is freed exactly with its last piece |
| MBuffer.Buffer.Realloc | pkgs/kernels/dedup/src/mbuffer.c:235-279 | Succeeds exactly for the only piece at the start of the allocation, if there is memory; the bytes that both sizes have room for stay, the rest is open; else nothing changes |
| MBuffer.Buffer.Renew | pkgs/kernels/dedup/src/mbuffer.c:321-331 | The old piece is given up and the new one taken over, in one allocation or two |
| TaskRound.RoundEnds | pkgs/kernels/dedup/src/encoder_task.h:739-828 | Whatever the interleaving: when all tasks have ended, the links from the first chunk lead through all chunks, these hold the input of the round in order, and the batches have visited each chunk exactly once |
| TaskRound.NobodyMeets | pkgs/kernels/dedup/src/encoder_task.h:491-611 | In every state of every run any two workers touch different chunks |
| TaskRound.StepTouches | pkgs/kernels/dedup/src/encoder_task.h:491-611 | What a worker touches is what its steps change: of the chunks there are it alters the link and the range of no other, and a batch visits no other |
| TaskRound.AssertionsHold | pkgs/kernels/dedup/src/encoder_task.h:505-551 | A task with chunks left has a chunk; the last chunk has no successor when it is handed over |
| TaskRound.RunInv | pkgs/kernels/dedup/src/encoder_task.h:532-611 | Links, ranges, batches and counters fit together in every state of every run |
| TaskRound.SplitInv | pkgs/kernels/dedup/src/encoder_task.h:553-586 | Splicing a new chunk behind the current one keeps the list linked and covering, whatever the other tasks have spliced |
| TaskRound.ProcessInv | pkgs/kernels/dedup/src/encoder_task.h:491-524 | A batch visits exactly its own chunks in order |
| TaskRound.CreateInv | pkgs/kernels/dedup/src/encoder_task.h:755-799 | Linking a coarse chunk at the end, while earlier ones are being refined, keeps the invariant |
| TaskList.WalkVisits | pkgs/kernels/dedup/src/encoder_task.h:349-357 | Following the links visits exactly the chunks of the list, in order |
| TaskList.SplitLinked | pkgs/kernels/dedup/src/encoder_task.h:561-564 | The two assignments of a splice insert the new chunk behind the current one and change nothing else |
| TaskList.SplitCovers | pkgs/kernels/dedup/src/encoder_task.h:565-567 | After a split the chunks still hold the same part of the input |
| TaskList.CoversData | pkgs/kernels/dedup/src/encoder_task.h:755-781 | Chunks that cover a part of the input hold exactly its bytes |
| TaskOutput.WriteRounds | pkgs/kernels/dedup/src/encoder_task.h:349-357 | Over all rounds the file is what the serial encoder writes, whichever chunk of a digest was entered first; TaskFile shows that the tasks leave such tables |
| TaskOutput.WriteRound | pkgs/kernels/dedup/src/encoder_task.h:311-331 | In one round every record is the serial one and exactly the originals of written chunks are flushed, also while the next round adds to the table |
| TaskOutput.RecordIs | pkgs/kernels/dedup/src/encoder_task.h:311-331 | The record of a chunk is the serial one whether it or its original comes first in the stream: data if the original is not flushed yet, else the fingerprint |
| TaskFile.WriteFile | pkgs/kernels/dedup/src/encoder_task.h:690-833 | For every schedule of the tasks of every round, and whenever the chunks of a round are written while the next one runs, the records decode to the input, or to the decompression error exactly if a chunk does not fit the buffer of the decoder |
| TaskFile.RoundsAreOk | pkgs/kernels/dedup/src/encoder_task.h:690-833 | After each round the table has the digest of every chunk so far, each entry being a chunk that has it, and entries stay |
| TaskFile.InputSoFar | pkgs/kernels/dedup/src/encoder_task.h:716-812 | The chunks of the rounds so far are nonempty and hold the input up to where it has been read |
| TaskTable.RunTable | pkgs/kernels/dedup/src/encoder_task.h:447-486 | In every state of a round exactly the digests of earlier rounds and of visited chunks are in the table, and a new entry is a visited chunk of this round that has the digest |
| TaskTable.OtherKeeps | pkgs/kernels/dedup/src/encoder_task.h:532-612 | No splice, hand-over or end of a task changes a chunk that a batch has visited |
| TaskFile.SmallEncodes | pkgs/kernels/dedup/src/encoder_task.h:690-833 | There are such runs: one byte through a round |
| TaskFragment.OffsetsIncreasing | pkgs/kernels/dedup/src/encoder_task.h:625-688 | Whenever SplitStream returns, its offsets rise strictly inside the input |
| TaskFragment.SplitReturns | pkgs/kernels/dedup/src/encoder_task.h:625-688 | SplitStream returns exactly if every part that it does not halve further is at most one ANCHOR_JUMP long or has a cut behind the first ANCHOR_JUMP bytes and before its end |
| TaskFragment.LeafReturns | pkgs/kernels/dedup/src/encoder_task.h:639-653 | The loop of a leaf ends exactly if this holds of the leaf; otherwise it repeats the same state for ever |
| TaskFragment.ShortTailNeverReturns | pkgs/kernels/dedup/src/encoder_task.h:639-653 | Whatever its bytes are, SplitStream does not return from an input of ANCHOR_JUMP plus 1 to 32 bytes: behind the jump there is no room for a cut |
| TaskFragment.UncutNeverReturns | pkgs/kernels/dedup/src/encoder_task.h:639-653 | Without cuts it does not return from any input longer than one ANCHOR_JUMP and shorter than two |
| TaskFragment.SplitStream | pkgs/kernels/dedup/src/encoder_task.h:656-687 | With cuts enough it ends with the offsets of both halves, those of the second moved |
| TaskFragment.OffsetsAre | pkgs/kernels/dedup/src/encoder_task.h:625-688 | When it returns, a number is among its offsets exactly if it is where the search started one ANCHOR_JUMP behind the beginning of some part longer than that ends, and there is one offset for each of these parts |
| TaskFragment.PartsTile | pkgs/kernels/dedup/src/encoder_task.h:656-665 | The parts are intervals that follow each other from one end of the input to the other, none as long as two ANCHOR_JUMP, and none shorter than one if there are several |
| TaskFragment.CutsEnoughIff | pkgs/kernels/dedup/src/encoder_task.h:639-653 | The condition under which it returns says of each part that the search ends before the part does |
| TaskFragment.SplitLeaf | pkgs/kernels/dedup/src/encoder_task.h:627-655 | With cuts enough the loop ends and all offsets fit the array of size / ANCHOR_JUMP entries |
| TaskFragment.EndsRise | pkgs/kernels/dedup/src/encoder_task.h:755-781 | The pieces made from the offsets are nonempty and end with the input |
| Rabin.FpReduce | pkgs/kernels/dedup/src/rabin.c:28-38 | 32 steps of the register |
| Rabin.FpMkRedTab | pkgs/kernels/dedup/src/rabin.c:41-47 | For every shift s each entry is 32 steps applied to its shifted byte, which up to s = 24 is the remainder of the byte times t^(32+s) |
| Rabin.FpMkWinRedTab | pkgs/kernels/dedup/src/rabin.c:60-66 | Every entry is what is left in the register of a byte that leaves the window |
| Rabin.RabinInit | pkgs/kernels/dedup/src/rabin.c:68-74 | Both tables, for the polynomial of the program and the given window length |
| Rabin.HitIs | pkgs/kernels/dedup/src/rabin.h:10 | A hash is a cut exactly if its twelve low bits are zero |
| Rabin.RabinSeg | pkgs/kernels/dedup/src/rabin.c:76-104 | The result is the first position from NWINDOW on at which the masked rolling hash is zero, else the length; never 0 on a nonempty string |
| Rabin.TableStep | pkgs/kernels/dedup/src/rabin.c:41-47 | One table look-up is the same as eight steps of the register, for every word |
| Rabin.RollingIsWindow | pkgs/kernels/dedup/src/rabin.c:76-104 | With tables for the window length NWINDOW the rolling hash is the hash of the last NWINDOW bytes alone |
| Rabin.LengthZeroWindow | pkgs/kernels/dedup/src/encoder_orig.h:305-306 | With the window length 0 that the encoder passes this holds exactly as long as every byte that has left the window is zero |
| Rabin.LengthZeroDiffers | pkgs/kernels/dedup/src/encoder_orig.h:305-306 | It fails on 33 bytes of which the first is 1 and the others are 0 |
| Rabin.AgreesIff | pkgs/kernels/dedup/src/rabin.c:76-104 | The same for every window length whose tables leave a residue |
| Rabin.ResidueOfLengthZero | pkgs/kernels/dedup/src/rabin.c:60-66 | The tables for length 0 leave a residue of every byte but zero |
| RabinDivision.HashIsRemainder | pkgs/kernels/dedup/src/rabin.c:76-104 | The hash of a string is the remainder of its polynomial over GF(2) |
| RabinDivision.Division | pkgs/kernels/dedup/src/rabin.c:28-38 | The register holds the remainder of the division by t^32 + irr |
| RabinDivision.DivisionUnique | pkgs/kernels/dedup/src/rabin.c:28-38 | There is no other quotient and remainder |
| RabinDivision.RollingIsRemainder | pkgs/kernels/dedup/src/rabin.c:76-104 | At every position the rolling hash, and nothing else, is the remainder of the last NWINDOW bytes |
| RabinRefine.Refine | pkgs/kernels/dedup/src/encoder_orig.h:667-725 | The refinement loop ends and cuts the piece at the first cut of what is left, each time |
| RabinRefine.CutUpLosesNothing | pkgs/kernels/dedup/src/encoder_orig.h:667-725 | The pieces joined are the whole, none is empty, all but the last have at least NWINDOW bytes |
| RabinRefine.CutUpUnique | pkgs/kernels/dedup/src/encoder_orig.h:667-725 | The content alone decides the pieces |
| RabinRefine.CutsAreLocal | pkgs/kernels/dedup/src/rabin.c:76-104 | With the right window length a position is a cut or not by its last NWINDOW bytes, wherever they occur |
| RabinRefine.UncutPiece | pkgs/kernels/dedup/src/encoder_orig.h:667-725 | The refinement does not bound the length of a chunk: for every length there are bytes that stay in one piece |
| RabinSearch.NoCutTwice | pkgs/kernels/dedup/src/rabin.c:76-104 | For every length there are bytes in which the search finds no cut, from the beginning or from any one other place |
| RabinSearch.RabinCutIs | pkgs/kernels/dedup/src/rabin.c:76-104 | Where rabinseg ends is a function of the bytes |
| RabinSearch.RabinStable | pkgs/kernels/dedup/src/rabin.c:76-104 | What follows does not change where it ends inside a string |
| RabinSearch.RefineCuts | pkgs/kernels/dedup/src/encoder_orig.h:667-725 | The refinement loop cuts a piece into exactly the pieces of this function |
| Rabin.NoCutInput | pkgs/kernels/dedup/src/rabin.c:76-104 | For every length and both tables there are bytes in which the search finds no cut |
| FpMine.FpGrowth | pkgs/apps/freqmine/src/fp_tree.cpp:1671-1768 | Every set of items of the tree with support at least the threshold is reported exactly once, with its exact support, and nothing else; the shared arrays, among them the look-up table, are left clean |
| FpMine.MarkIs | pkgs/apps/freqmine/src/fp_tree.cpp:1684-1695 | The mark is the greatest value of the smallest element type that has a value for each item |
| FpMine.MineItem | pkgs/apps/freqmine/src/fp_tree.cpp:1700-1768 | One turn of its loop covers exactly the frequent sets that end with the item, through the shortcuts for no and one item and the conditional tree |
| FpMine.MineConditional | pkgs/apps/freqmine/src/fp_tree.cpp:1725-1768 | The conditional tree, mined as a single path or again, gives the frequent sets of the conditional database |
| FpMine.Powerset | pkgs/apps/freqmine/src/fp_tree.cpp:1391-1412 | Every choice of the remaining items once, with the count of the last item chosen |
| FpMine.PowerCovers | pkgs/apps/freqmine/src/fp_tree.cpp:1391-1421 | On a single path the power set is exactly what is frequent |
| FpMine.SinglePathSup | pkgs/apps/freqmine/src/fp_tree.cpp:1414-1421 | On a single path the support of a set is the count of its last item |
| FpDatabase.MinesDatabase | pkgs/apps/freqmine/src/fp_tree.cpp:1671-1768 | On the tree of a database: every nonempty set once if its support in the database reaches the threshold, else never, and every report is right |
| FpDatabase.MineDatabase | pkgs/apps/freqmine/src/fp_tree.cpp:1671-1768 | From a database of transactions to the reports: counting, numbering by descending support, the first tree and FP_growth give every nonempty set of items whose support reaches the threshold once, with its support, and nothing else |
| FpDatabase.InsertAllSup | pkgs/apps/freqmine/src/fp_tree.cpp:1051-1129 | The tree of a database gives every set the weight of the transactions that contain it |
| FpArray.Transform | pkgs/apps/freqmine/src/fp_tree.cpp:127-197 | Each node yields one entry under its item; reading from it up to the mark gives its ancestors from parent to root; all writes are inside the array sized by new_data_num |
| FpArray.MarkIsLeaf | pkgs/apps/freqmine/src/fp_tree.cpp:1684-1695 | The mark is never taken for an ancestor, also with as many items as the element type has values |
| FpBuild.ConditionalPatternBase | pkgs/apps/freqmine/src/fp_tree.cpp:330-373 | Exactly the frequent items of the conditional database, with their supports; the infrequent ones are noted |
| FpBuild.Scan1 | pkgs/apps/freqmine/src/fp_tree.cpp:1354-1389 | The frequent items are numbered by descending support, the others dropped |
| FpBuild.SortHeader | pkgs/apps/freqmine/src/fp_tree.cpp:1354-1389 | The same items and counts, in descending order of count |
| FpScan.Scan2 | pkgs/apps/freqmine/src/fp_tree.cpp:375-461 | The tree built with masks of hot items, the first-level look-up table, late parents and downward counts is the one from inserting the filtered, sorted transactions one by one, up to the order of siblings, with right node counts and leaf depths; the table is empty before and after |
| FpScan.ReadTrans | pkgs/apps/freqmine/src/fp_tree.cpp:391-424 | One transaction becomes its mask of hot items and its ascending list of others |
| FpScan.FillCount | pkgs/apps/freqmine/src/fp_tree.cpp:1151-1163 | The flagged items in ascending order, and the flags taken back |
| FpScan.LinkAll | pkgs/apps/freqmine/src/fp_tree.cpp:426-456 | Linking the hot nodes from the largest mask down gives a trie with all the weights |
| FpScan.NumHotIs | pkgs/apps/freqmine/src/fp_tree.cpp:1381-1386 | The hot items are half of all but no more than the limit, and none unless there are eight occurrences for each mask |
| FpTable.AddFast | pkgs/apps/freqmine/src/fp_tree.cpp:1051-1129 | Insertion in which the table alone decides the first level below the masks that have a row is insertion with the walk along the siblings; afterwards again an entry points to the child of its item exactly if there is one, and is on the stack |
| FpTable.ByEntry | pkgs/apps/freqmine/src/fp_tree.cpp:1058-1066 | With the entry that belongs to the first item both insertions give the same tree, node counts and depths |
| FpTable.WrongEntry | pkgs/apps/freqmine/src/fp_tree.cpp:1058-1066 | With any other entry, missing or pointing to another child, the tree differs |
| FpTable.Reset | pkgs/apps/freqmine/src/fp_tree.cpp:457-460 | Taking back the entries on the stack empties the table |
| FpGrow.AddTransGrows | pkgs/apps/freqmine/src/fp_tree.cpp:1051-1129 | Adding a transaction at the node of its mask keeps every support, count and depth right |
| FpGrow.LinkGrows | pkgs/apps/freqmine/src/fp_tree.cpp:426-456 | Linking one hot node to its parent, made if need be, keeps them right |
| FpGrow.Grown | pkgs/apps/freqmine/src/fp_tree.cpp:426-461 | In the end the root carries all branches |
| FpSame.LinkCount | pkgs/apps/freqmine/src/fp_tree.cpp:426-456 | Linking keeps the count of every branch |
| FpSame.RootCounts | pkgs/apps/freqmine/src/fp_tree.cpp:426-461 | So the tree is the one of plain insertion, up to the order of siblings |
| FpMasks.HighUnique | pkgs/apps/freqmine/src/fp_tree.cpp:426-456 | The highest bit of a mask, by which its parent is found |
| FpMasks.SetBitIs | pkgs/apps/freqmine/src/fp_tree.cpp:391-424 | Setting a bit adds exactly its item to the set of a mask |
| FpForest.InsertSup | pkgs/apps/freqmine/src/fp_tree.cpp:1051-1129 | Inserting a branch adds exactly its weight to the sets it contains |
| FpForest.InsertTrie | pkgs/apps/freqmine/src/fp_tree.cpp:1051-1129 | A trie stays one: siblings differ, items rise along a branch |
| FpForest.InsertNodes | pkgs/apps/freqmine/src/fp_tree.cpp:1051-1129 | The node counters go up by exactly the nodes made |
| FpForest.InsertLeaves | pkgs/apps/freqmine/src/fp_tree.cpp:1051-1129 | The counter of leaf depths goes up by exactly what the sum of leaf depths does |
| FpForest.BaseSup | pkgs/apps/freqmine/src/fp_tree.cpp:330-373 | The paths above the nodes of an item are the database conditional on it |
| FpForest.BaseLength | pkgs/apps/freqmine/src/fp_tree.cpp:127-197 | There are as many of them as nodes |
| FpLift.LiftItem | pkgs/apps/freqmine/src/fp_tree.cpp:1700-1722 | An item and the sets of its conditional database are the sets that end with it |
| FpLift.LiftTree | pkgs/apps/freqmine/src/fp_tree.cpp:1725-1768 | Mining the renumbered conditional tree mines the conditional database |
| FpSort.Sort | pkgs/apps/freqmine/src/fp_tree.cpp:503-517 | The part is in descending order and both arrays are permuted alike, inside the part |
| FpSort.Partition | pkgs/apps/freqmine/src/fp_tree.cpp:480-491 | Divides at the pivot although the scan may step left of the part; a swap outside it is undone |
| FpSort.InsSort | pkgs/apps/freqmine/src/fp_tree.cpp:493-501 | Insertion sort, with the same permutation of both arrays |
| FpSort.Divide | pkgs/apps/freqmine/src/fp_tree.cpp:503-517 | After the pivot has come between, no element before it is smaller and none behind it larger |
| AtomicSwap.Linearizable | pkgs/kernels/canneal/src/AtomicPtr.h:226-274 | In every state of every run cells and values in flight are the initial values after the logged swaps in order, hence a permutation; a failed TrySwap has no effect and a Swap always succeeds |
| AtomicCalls.CallOnItsCells | pkgs/kernels/canneal/src/AtomicPtr.h:226-274 | In every run, from a call to the next call of the same thread, the thread has at most one effect, which exchanges the two cells it was called with and no others, and at most one return, which is true exactly if there was the effect |
| AtomicCalls.AloneInTurn | pkgs/kernels/canneal/src/AtomicPtr.h:226-274 | A call that nobody disturbs exchanges the values of its two cells and returns true; TrySwap of one cell with itself leaves it as it was and returns false |
| AtomicSwap.QuietState | pkgs/kernels/canneal/src/AtomicPtr.h:226-298 | When no call is under way the cells hold these values, none the sentinel, one logged swap for each call that succeeded |
| AtomicSwap.GetIsCurrent | pkgs/kernels/canneal/src/AtomicPtr.h:191-218 | A loaded value other than the sentinel is the current value of the cell in this order |
| AtomicSwap.SomeThreadFinishes | pkgs/kernels/canneal/src/AtomicPtr.h:226-244 | While a call is under way some thread can finish alone within six steps, because of the address order |
| AtomicSwap.AllFinishIff | pkgs/kernels/canneal/src/AtomicPtr.h:226-274 | From a reachable state some schedule ends all calls exactly if no Swap under way was given the same cell twice |
| AtomicSwap.AllFinish | pkgs/kernels/canneal/src/AtomicPtr.h:226-274 | From every reachable state without such a Swap some schedule ends all calls |
| AtomicSwap.SelfSwapNeverReturns | pkgs/kernels/canneal/src/AtomicPtr.h:226-244 | A call of Swap with the same cell twice never returns, whatever the threads do |
| AtomicSwap.SelfSwapExample | pkgs/kernels/canneal/src/AtomicPtr.h:226-244 | One thread that swaps a cell with itself is a run after which no schedule ends the call |
| AtomicSwap.ReplayPermutes | pkgs/kernels/canneal/src/AtomicPtr.h:226-244 | Swaps permute |
| Routing.DeltaIs | pkgs/kernels/canneal/src/annealer_thread.cpp:199-208 | For symmetric connections the incremental cost is the change of the total cost plus an explicit excess |
| Routing.DeltaExact | pkgs/kernels/canneal/src/annealer_thread.cpp:199-208 | It is exact if and only if the two elements are in the same place or their mutual connections balance those with themselves |
| Routing.DeltaWithoutLoops | pkgs/kernels/canneal/src/annealer_thread.cpp:199-208 | Without self-connections it is too small by twice the distance per mutual connection: exact exactly if unconnected or in the same place |
| Routing.ConnectedPairFails | pkgs/kernels/canneal/src/annealer_thread.cpp:199-208 | For two elements joined by one connection, at any two different places, it is minus twice their distance, while the total cost stays the same |
| Routing.TotalRoutingCost | pkgs/kernels/canneal/src/netlist.cpp:51-61 | The loop over named elements gives the cost over all elements |
| Routing.RoutingCostGivenLoc | pkgs/kernels/canneal/src/netlist_elem.cpp:51-70 | The distances to all neighbours, both ways |
| Routing.DistIs | pkgs/kernels/canneal/src/netlist_elem.cpp:51-70 | The distance is the difference along an axis and adds up on the way over any place between, for instance a corner |
| Routing.TotalIsWire | pkgs/kernels/canneal/src/netlist.cpp:51-61 | The total cost of a netlist as it is read counts every connection once, at its length |
| Routing.SwapCost | pkgs/kernels/canneal/src/netlist_elem.cpp:75-99 | The one-pass loops give the difference of the costs at the new and the old place |
| Routing.CalculateDelta | pkgs/kernels/canneal/src/annealer_thread.cpp:199-208 | The sum of the two costs of moving |
| Routing.ConnectKeeps | pkgs/kernels/canneal/src/netlist.cpp:205-213 | Entering a connection on both sides keeps fanin and fanout symmetric and adds exactly that edge |
| Routing.BuildSymmetric | pkgs/kernels/canneal/src/netlist.cpp:205-213 | Every netlist built this way is symmetric |
| Barrier.RoundsSeparate | pkgs/apps/fluidanimate/src/parsec_barrier.cpp:127-208 | In every run, blocking or spinning: a thread enters a round only after max threads have left every earlier one and leaves it only after max have entered; the first one to enter is the serial thread |
| Barrier.RoundsComplete | pkgs/apps/fluidanimate/src/parsec_barrier.cpp:127-208 | Of every finished round max threads entered and left and exactly one was the serial thread; the counter stays between 0 and max |
| Barrier.BlocksOnlyForArrivals | pkgs/apps/fluidanimate/src/parsec_barrier.cpp:137-198 | No wake-up is lost: if nobody can move, the threads inside wait for others to arrive |
| Barrier.SomebodyInside | pkgs/apps/fluidanimate/src/parsec_barrier.cpp:199-204 | The counter is positive when a thread takes itself off |
| Barrier.RunInv | pkgs/apps/fluidanimate/src/parsec_barrier.cpp:127-208 | The invariant of phases, counter, mutex and log holds in every state of every run |
| Grid.MakeBoxes | pkgs/apps/fluidanimate/src/pthreads.cpp:195-219 | The rounded cuts give xdivs times zdivs boxes, and the assertions that none is empty hold |
| Grid.Partition | pkgs/apps/fluidanimate/src/pthreads.cpp:195-219 | Every cell is in the box of exactly one thread, and boxes hold only cells |
| Grid.CutGrows | pkgs/apps/fluidanimate/src/pthreads.cpp:200-201 | Consecutive cuts differ if there are at least as many columns as parts |
| Grid.CutRounds | pkgs/apps/fluidanimate/src/pthreads.cpp:200-201 | A cut is the whole number next to the exact one, the upper of two equally near |
| Grid.MarkCell | pkgs/apps/fluidanimate/src/pthreads.cpp:228-256 | The three loops with their breaks flag a cell exactly if a clamped neighbour is outside the box |
| Grid.MarkBorders | pkgs/apps/fluidanimate/src/pthreads.cpp:221-257 | After the loops every flag is right, each cell having been treated in the box of its owner |
| Grid.IndexInjective | pkgs/apps/fluidanimate/src/pthreads.cpp:227-228 | Two cells never share an index |
| GridSharing.BorderExact | pkgs/apps/fluidanimate/src/pthreads.cpp:221-257 | A cell is marked if and only if a thread other than its owner reaches it |
| GridSharing.UpdatesAreGuarded | pkgs/apps/fluidanimate/src/pthreads.cpp:696-761 | Two threads that update the same particle in the density or force pass do so under the same lock |
| GridSharing.UnguardedIsExclusive | pkgs/apps/fluidanimate/src/pthreads.cpp:696-761 | A particle updated without a lock is updated by the owner of its cell only |
| GridSharing.AppendsAreGuarded | pkgs/apps/fluidanimate/src/pthreads.cpp:600-616 | Two threads that append to the same cell both take its lock, if particles move to neighbouring cells at most |
| GridSharing.InitNeighCellList | pkgs/apps/fluidanimate/src/pthreads.cpp:642-669 | The loops list the cell and the neighbours taken, within the 27 places of the array |
| GridSharing.ListedIff | pkgs/apps/fluidanimate/src/pthreads.cpp:655-668 | Listed are exactly the neighbours with a smaller index that hold particles |
| GridSharing.ListedOnce | pkgs/apps/fluidanimate/src/pthreads.cpp:655-668 | None is listed twice |
| GridSharing.PairOnce | pkgs/apps/fluidanimate/src/pthreads.cpp:642-669 | Of two neighbouring cells with particles exactly one lists the other |
| CellPool.AllocBlock | pkgs/apps/fluidanimate/src/cellpool.cpp:40-77 | The cells of a new block, all different, linked in order and ended by null |
| CellPool.Pool.constructor | pkgs/apps/fluidanimate/src/cellpool.cpp:80-92 | The first block has four times the best case, at least 1024 cells, all free |
| CellPool.Pool.GetCell | pkgs/apps/fluidanimate/src/cellpool.cpp:95-115 | The first free cell, unlinked; an empty pool is doubled, and alloc stays the number of cells ever allocated |
| CellPool.Pool.ReturnCell | pkgs/apps/fluidanimate/src/cellpool.cpp:118-123 | The cell is the next to be given |
| RebuildGrid.Sim.RebuildGrid | pkgs/apps/fluidanimate/src/serial.cpp:315-417 | Every particle is in the chain of its clamped cell, in the order met; no particle is lost or made; chains are no longer than needed, and pool and chains stay a disjoint cover of all cells |
| RebuildGrid.Sim.MoveChain | pkgs/apps/fluidanimate/src/serial.cpp:337-415 | One old chain: its particles are appended where they belong and all its cells but the first go back to the pool |
| RebuildGrid.Sim.AddParticle | pkgs/apps/fluidanimate/src/serial.cpp:378-399 | A particle is appended to its chain, which gets one more cell exactly if it is full |
| RebuildGrid.Sim.Advance | pkgs/apps/fluidanimate/src/serial.cpp:401-409 | The pointer moves to the next cell when a cell has been read, and the cell read is given back unless it is the first |
| RebuildGrid.Sim.EndChain | pkgs/apps/fluidanimate/src/serial.cpp:412-415 | The last cell of a chain is given back unless it is the first or has been |
| RebuildGrid.Sim.TurnGrids | pkgs/apps/fluidanimate/src/serial.cpp:317-332 | The grids change roles and the new one is empty |
| RebuildGrid.SettledConserves | pkgs/apps/fluidanimate/src/serial.cpp:315-417 | If every chain holds what belongs there, the chains together hold every particle once |
| RebuildGrid.Dest | pkgs/apps/fluidanimate/src/serial.cpp:344-374 | The clamped cell of any position is a cell of the grid |
| RebuildGrid.DestIs | pkgs/apps/fluidanimate/src/serial.cpp:344-374 | A particle belongs to the cell between whose grid lines it lies on each axis, or to the outermost one at the side where it has left, and cells are numbered with x running fastest and z slowest |
| RebuildGrid.SelectIs | pkgs/apps/fluidanimate/src/serial.cpp:378-399 | What belongs to a chain are exactly the particles of its cell |
| RebuildGrid.SelectAppend | pkgs/apps/fluidanimate/src/serial.cpp:378-399 | They are there in the order met |
| RebuildLayout.FreedPlaced | pkgs/apps/fluidanimate/src/serial.cpp:401-415 | Giving back a cell that is no longer in use keeps free list and chains disjoint and complete |
| RebuildLayout.GotPlaced | pkgs/apps/fluidanimate/src/serial.cpp:381-385 | So does taking one, also when the pool has to grow |
| RebuildLayout.TurnedPlaced | pkgs/apps/fluidanimate/src/serial.cpp:317-332 | So does the change of roles |
| MatroskaWriter.Session | pkgs/apps/x264/src/matroska.c:302-514 | A whole session: the file holds the header and clusters with exactly the frames put in, a cluster ends exactly when it is longer than CLSIZE or the next time is not within 16 bits of its own (Packed), and a parser recovers header elements, times, keyframe flags, references and data exactly if none of these begins is negative |
| MatroskaWriter.ExpectedAre | pkgs/apps/x264/src/matroska.c:476-498 | The frames of a session, one by one: the time divided toward zero, the key flag, all data, the time of the frame before |
| MatroskaWriter.LatestIs | pkgs/apps/x264/src/matroska.c:476-487 | The duration is counted from the greatest time that was set, or from zero |
| MatroskaWriter.OneFrame | pkgs/apps/x264/src/matroska.c:410-464 | A session of one frame is recovered exactly if its time is above minus one unit of the time scale |
| MatroskaWriter.FirstDecides | pkgs/apps/x264/src/matroska.c:410-464 | Of two frames in one cluster the time of the first is the time of the cluster |
| MatroskaWriter.FinishedRecovers | pkgs/apps/x264/src/matroska.c:327-514 | A parser recovers everything if and only if the header was written before any cluster and no cluster begins at a negative time |
| MatroskaWriter.LateHeaderSession | pkgs/apps/x264/src/matroska.c:327-514 | After two frames further apart than 16 bits, with a third begun, a header that is written now makes the whole file unreadable |
| MatroskaWriter.Writer.FlushFrame | pkgs/apps/x264/src/matroska.c:410-464 | The pending frame is appended once; the delta always fits 16 bits, a new cluster being begun if it would not |
| MatroskaWriter.Writer.MakeRoom | pkgs/apps/x264/src/matroska.c:418-434 | Afterwards there is a cluster in which the delta of the frame fits 16 bits |
| MatroskaWriter.Writer.AppendFrame | pkgs/apps/x264/src/matroska.c:436-460 | The block group joins the cluster, and the frame is the one the next refers to |
| MatroskaWriter.Writer.CloseCluster | pkgs/apps/x264/src/matroska.c:401-408 | The cluster moves to the file with its ID and size; no frame is lost |
| MatroskaWriter.Writer.WriteHeader | pkgs/apps/x264/src/matroska.c:327-399 | The header follows what is in the file, and duration_ptr is the offset of the Duration payload in the header; a second call fails and changes nothing |
| MatroskaWriter.Writer.StartFrame | pkgs/apps/x264/src/matroska.c:466-474 | The frame before is flushed and a new one begun |
| MatroskaWriter.Writer.SetFrameFlags | pkgs/apps/x264/src/matroska.c:476-487 | Time and keyframe flag are set and the latest time kept; without a frame it fails |
| MatroskaWriter.Writer.AddFrameData | pkgs/apps/x264/src/matroska.c:489-498 | The data is appended; without a frame it fails |
| MatroskaWriter.Writer.Close | pkgs/apps/x264/src/matroska.c:500-514 | The last frame and cluster are written, and the duration is written at duration_ptr, which is in the header if no cluster is in front of it |
| MatroskaWriter.WriteGroup | pkgs/apps/x264/src/matroska.c:436-457 | The bytes written with precomputed sizes are the serialized block group |
| MatroskaWriter.BuildHeader | pkgs/apps/x264/src/matroska.c:336-397 | The contexts written one into the other are the serialized header, and the offset computed is that of the duration |
| MatroskaFile.FileRoundTrip | pkgs/apps/x264/src/matroska.c:327-464 | Header and clusters are parsed back, each value of the header under its ID; the frames are right exactly if no cluster begins before zero |
| MatroskaFile.EbmlRead | pkgs/apps/x264/src/matroska.c:343-352 | A reader that looks for values by ID finds the EBML versions and limits and the document type "matroska" |
| MatroskaFile.InfoRead | pkgs/apps/x264/src/matroska.c:359-366 | In the segment information both program names, the time scale and the duration |
| MatroskaFile.TrackRead | pkgs/apps/x264/src/matroska.c:368-380 | In the track its number, type and codec, the private data and the frame duration exactly if they were given |
| MatroskaFile.VideoRead | pkgs/apps/x264/src/matroska.c:382-388 | In the video settings width, height, display width and display height |
| MatroskaFile.PatchDuration | pkgs/apps/x264/src/matroska.c:504-507 | Overwriting four bytes at duration_ptr changes the Duration payload and nothing else |
| MatroskaFile.VisibleExact | pkgs/apps/x264/src/matroska.c:421-427 | Times are misread exactly in clusters that begin before zero |
| Matroska.GroupSizeIs | pkgs/apps/x264/src/matroska.c:436-442 | The size computed in advance for a block group is the number of bytes that follow |
| Matroska.GroupRoundTrip | pkgs/apps/x264/src/matroska.c:443-457 | A parser recovers time, keyframe flag, reference and data of a block group |
| Matroska.ClusterRoundTrip | pkgs/apps/x264/src/matroska.c:421-457 | A cluster gives back its frames, with their times exactly if its own time is not negative |
| Ebml.IdRoundTrip | pkgs/apps/x264/src/matroska.c:108-118 | An ID is read back (section 5 of RFC 8794) |
| Ebml.SizeRoundTrip | pkgs/apps/x264/src/matroska.c:120-140 | A size is read back and never taken for unknown (section 6 of RFC 8794) |
| Ebml.SizeShortest | pkgs/apps/x264/src/matroska.c:120-140 | No shorter size would do: it could not hold the number or would read as unknown |
| Ebml.FromBytesMore | pkgs/apps/x264/src/matroska.c:108-118 | Bytes are read most significant first |
| Ebml.WriteSize | pkgs/apps/x264/src/matroska.c:120-140 | Setting the marker in the prepared bytes gives the encoding of the size |
| Ebml.UIntRoundTrip | pkgs/apps/x264/src/matroska.c:225-235 | An unsigned element holds the 64 bits of the number without leading zero bytes, and the number itself exactly if it is not negative |
| Ebml.WriteUInt | pkgs/apps/x264/src/matroska.c:225-235 | The loop drops exactly the leading zero bytes |
| Ebml.SIntRoundTrip | pkgs/apps/x264/src/matroska.c:237-251 | A signed element is read back, for all 64-bit numbers, and has no byte that only repeats the sign (section 7 of RFC 8794) |
| Ebml.WriteSInt | pkgs/apps/x264/src/matroska.c:237-251 | The loops drop exactly the bytes that repeat the sign |
| Ebml.SIntSize | pkgs/apps/x264/src/matroska.c:288-300 | The precomputed length of a signed element is the length written |
| Ebml.ElemRoundTrip | pkgs/apps/x264/src/matroska.c:209-223 | An element is read back, whatever follows it |
| Ebml.ParseSer | pkgs/apps/x264/src/matroska.c:171-189 | Parsing is the inverse of serializing, for every list of elements |

## Left out

dedup:

* External parts are parameters: SHA-1 as a function, gzip and bzip2 as a compressor with an inverse. The theorems assume
  no digest collision among the chunks of the run where they need it.
* Reading and writing files, the header of the output file with the compression type, statistics, I/O errors of the encoder,
  and running out of memory.
* Liveness of the threaded pipeline: with bounded queues it does not follow from the code. PipelineExample shows one
  family of runs that finish.
- PipelineTheorems.DecodeUndoesEncode: does not model the 32-bit wrap-around of the sequence numbers, and takes where the pieces are cut as arbitrary; PipelineDetermined has the cuts of a search
- PipelineOrder.SizeSetOnce: chunks_per_anchor is a map that grows as needed; the program doubles its array once per arrival (encoder_orig.h:1553-1558)
- PipelineOrder.NextIsMin: the search tree of heaps is a map of sets with a least key; tree.c is not part of this model, the heap is BinHeap
- PipelineStore.DedupFresh: one call of sub_Deduplicate is one step, which its bucket lock justifies; Hashtable shows that only the chain under that lock is read or changed
- BinHeap.PriorityQueue.DeleteMin: on an empty heap the program stops with a message, where the model returns nothing; a capacity below 16 is excluded, as Initialize does by stopping
- RingQueue.Queue.Dequeue: the waiting on the condition variables is the precondition; the pipeline model has the waiting as a guard
- Hashtable.Table.Insert: without the dynamic expansion, which the parallel version does not use, and without hashtable_remove, which dedup never calls
- MBuffer.Buffer.Split: without mbuffer_clone and mbuffer_copy, which are never called
- TaskRound.RoundEnds: the cuts are arbitrary; scheduling is an arbitrary interleaving of steps on one chunk
- TaskFragment.SplitStream: the search is an arbitrary function of where it starts and ends (ShortTailNeverReturns takes the one of rabin.c); the method has the guard under which it returns; running the halves at once changes nothing, since they share no data

freqmine:

* Loading the database, the first tree and its array (database_tiling, scan2_DB on the database, first_transform) and the
  arena of buffer.cpp; the first tree is made by inserting one
  transaction after another, and objects are fresh.
- FpScan.Scan2: the nodes are values in a forest, not cells linked in place; a pointer in the look-up table is the item of the child it points to, and the scan updates sequences of forests indexed by mask
- FpMine.FpGrowth: the statistics of ITlen are left out, and the number of items is below 2^31

canneal:

* The acceptance probability and the random numbers; which cells are swapped is arbitrary.
- AtomicSwap.Linearizable: every access is atomic and sequentially consistent; Checkin as compiled for threads is a plain store, because of a misspelt macro (AtomicPtr.h:293), and is treated as atomic
- Routing.DeltaExact: coordinates and costs are real numbers without rounding, and nothing moves during the computation

fluidanimate:

* The physics, the visualization and the files. That an address comparison visits every pair of particles once is not claimed:
  it fails when cells overflow into the pool.
- Barrier.RoundsSeparate: errors returned by pthread functions are left out
- Grid.MakeBoxes: the cuts are computed over real numbers, without the rounding of fptype
- GridSharing.UpdatesAreGuarded: which cells and locks the passes use, not the arithmetic on the particles
- GridSharing.AppendsAreGuarded: that a particle moves at most to a neighbouring cell is assumed, as the program does
- RebuildGrid.Sim.RebuildGrid: the serial version; the threaded one does the same per thread under the locks above. The sixteen places of a cell structure are a sequence field of it, and particles have real coordinates

x264:

* The encoder, the other muxers, and running out of memory. A context is the sequence of its bytes; the free list of contexts
  and their growth are left out, so contexts stay below 2 GiB and frames below 2145386496 bytes.
- MatroskaWriter.Writer.WriteHeader: the strings of the header are at most 64 MiB long and the time scale is positive
- MatroskaWriter.Writer.Close: the conversion of the duration to a float is a parameter, and the sum of the latest time and the default duration does not wrap around
- MatroskaWriter.Session: times are below 2^62 in absolute value, so that differences fit 64 bits
