# Parcode: a verified model

Parcode turns a Rust value into a tree of chunks, runs the tree bottom-up (in parallel or
serially), appends the chunks to one byte stream, and reads them back eagerly or lazily.
This project models that pipeline in Dafny, from the object in memory to the bytes and back,
and proves what the pieces promise to each other.

| Part | Modules |
|---|---|
| Values, types, codec | `Values`, `Bincode`, `EncodingBounds` |
| Chunk format, header, compressors | `Format`, `FileHeader` |
| Visiting: shards, buckets, jobs, arena | `Sharding`, `Jobs`, `Trees`, `Graph`, `Visitor`, `Shape`, `Configuration` |
| Executor as a transition system | `Protocol`, `Invariant`, `Steps`, `Runs`, `Agreement` |
| Serial executor | `SerialRun`, `SerialExecutor` |
| What a run leaves behind | `Stored`, `Inspector`, `Accounting`, `EndToEnd`, `Compression` |
| Eager reading | `Reader`, `Loadable`, `MapFormat`, `Buckets`, `MapBack`, `ReadBack`, `MapLoading`, `Stitching` |
| Random access and streaming | `Indexing`, `Iteration`, `MapLookup`, `MapAnswers` |
| Lazy reading | `Lazy`, `LazyVectors`, `LazyIteration`, `MapLazy` |
| Every reading, from a written file | `FileReadings` |
| The format in figures, byte by byte | `Layout`, `Thresholds`, `Examples` |
| Concrete failing inputs | `Boundaries` |

Objects (`Obj`) carry what the writer depends on: struct fields with their attributes, and the
iteration order of every map. Values (`Value`) are what a reader returns, with maps as
mathematical maps. The hash function, the number of processors, the map orders, the
compressors and the schedule of the workers are arbitrary. A struct type may mention itself;
every reader takes the depth of the call stack as `fuel`, and the theorems hold whenever it is
at least the depth of the object.

The executor is a transition system with one step per lock acquisition or atomic operation.
A schedule is any sequence of (worker, does its write fail) pairs, so a statement about all
schedules is a statement about all interleavings and all write failures. The serial executor
is a loop over the arena, proved to compute the outcome and the output of one such run.

Where the code does not do what one would expect, the model follows the code and the exact
condition is proved. A map in sharded mode comes back exactly if no value has bytes outside its
shard entry. A blob map needs four bytes, and a promise never reads it. A lookup in an empty
map divides by zero. The executors differ exactly on unregistered compressors. Only
three bits of a compressor id survive. `get_lazy`, on a vector or on a map, works exactly for
structs. `iter` stops only in a shard that does not load. Recursion over a file ends if every
chunk lies behind its children, as the chunks of a written tree do; bytes that name a chunk as
its own child exhaust any stack.

Sizes, tags, positions and limits are not only related to each other by round trips. `Layout`,
`Thresholds` and `Examples` state them as numbers, the shard and bucket counts included, and
`Configuration` and `Compression` say which compressor every chunk was made with.

The documentation describes a map shard's values as full bincode tuples (`src/map.rs:70`); the
code writes them with `serialize_shallow`, and the model follows the code.

## Model

| member | source | states |
|---|---|---|
| EndToEnd.RoundTrip | src/api.rs:414-437 | For every object, machine, registry and schedule: loading the file that a successful run wrote gives the object's value back if and only if the object loads |
| EndToEnd.LazyRoundTrip | src/reader.rs:732-738 | The lazy root can always be created, and materialising it gives the value back if and only if the object lazily loads |
| EndToEnd.ScheduleIndependence | src/executor.rs:258-385 | Payloads and ordered child lists read from the root are those of the object's tree, whatever schedule or executor wrote the file |
| EndToEnd.Conservation | src/inspector.rs:79-109 | Inspecting a written file accounts for every byte: the chunk lengths and the header add up to the file size |
| EndToEnd.Inspected | src/inspector.rs:79-109 | The report on a written file is right at every node of the object's tree |
| EndToEnd.RootIsLast | src/executor.rs:382-384 | The root is the last chunk; nothing is appended behind it |
| EndToEnd.WrittenHolds | src/api.rs:425-434 | The bytes of a successful run open, and the root chunk carries the whole tree |
| Agreement.CleanRunSucceeds | src/api.rs:414-437 | A complete run without write faults ends in a readable file exactly if every node's own work succeeds, in whatever order |
| Agreement.CleanOutcome | src/executor.rs:136-151 | Whether such a run succeeds does not depend on the schedule |
| Agreement.ErrorKinds | src/executor.rs:286-296 | Missing child results, slots out of bounds and placeholder runs are unreachable for every visited graph |
| Agreement.NoPlaceholder | src/visitor_impls.rs:398-424 | No placeholder job remains in a visited graph |
| Agreement.SameRuns | src/executor.rs:202-205 | With every requested compressor registered both executors pass through the same states under every schedule |
| Agreement.ExecutorsAgree | src/executor.rs:317-323 | The parallel executor succeeds exactly when the serial one does and every requested compressor is registered |
| Agreement.ExecutorsDiffer | parcode-derive/src/lib.rs:104-108 | A field with the zstd attribute, which asks for a compressor the default registry lacks: without write faults every complete parallel run ends in that error and every complete serial run succeeds |
| Steps.RunInv | src/executor.rs:258-385 | In every reachable state: a node's counter is the number of its unfinished children, it waits exactly while that is positive, its slots hold what its children delivered, chunks tile the output, and children end before their parent starts |
| Steps.PickInv | src/executor.rs:258-385 | Every single step of every worker keeps the invariant |
| Steps.ProduceNoMissing | src/executor.rs:286-296 | A node that runs finds every slot filled |
| Steps.RegisterStep | src/graph/core.rs:51-65 | Delivering a result fills exactly the reserved slot and keeps the invariant |
| Steps.ReleaseStep | src/executor.rs:377-381 | Decrementing the counter keeps the invariant, including when it spawns the parent |
| Runs.Termination | src/executor.rs:129-134 | No schedule has more than eight effective steps per node |
| Runs.StepsEnd | src/executor.rs:258-385 | Every effective step lowers a measure |
| Runs.NeverBack | src/executor.rs:377-381 | A node passes through every stage at most once, so it is spawned and appended at most once |
| Runs.RootLast | src/executor.rs:377-384 | When the root has stopped waiting, every other node has finished |
| Runs.QuiescentFinished | src/executor.rs:129-151 | A joined scope without an error has finished every node |
| Runs.Settled | src/executor.rs:129-151 | In a joined scope no lock is held and every node waits, has finished or was stopped |
| Runs.RunOutcome | src/executor.rs:136-151 | A joined scope returns either the root's extent with every node written, or the captured, legitimate error with no root result |
| Runs.ErrorOrRoot | src/executor.rs:45-60 | An error and a root result are never both captured |
| Runs.FirstErrorWins | src/executor.rs:45-51 | The error that is returned is the first one signalled |
| Runs.LockExcludes | src/executor.rs:45-51 | While one worker signals its error, another that fails waits |
| Runs.AbortFirst | src/executor.rs:45-51 | In every reachable state, if any worker has stopped on account of an error, the abort flag is set |
| Runs.NoFaultNoError | src/executor.rs:258-385 | Without faults and with every node's work succeeding no error is ever signalled |
| Runs.FailureIsReported | src/executor.rs:136-143 | A run in which some node's work fails never succeeds |
| SerialExecutor.ExecuteSerial | src/executor.rs:155-253 | The serial loop returns the outcome and writes the output of one complete run of the transition system, for every pattern of write failures |
| SerialExecutor.ProcessNode | src/executor.rs:169-246 | One iteration is one complete turn of that node's worker |
| SerialExecutor.CollectResults | src/executor.rs:178-181 | Collecting the slots fails exactly on a missing child |
| SerialExecutor.FrameChunk | src/executor.rs:219-233 | The bytes pushed are the framed chunk |
| SerialExecutor.BuildChunk | src/executor.rs:185-233 | Serialise, choose the compressor with the fallback, compress and frame |
| SerialExecutor.WriteSync | src/api.rs:460-485 | Visit, execute and append the header: the bytes are those of a run, so every theorem about files applies |
| SerialExecutor.SeqWriter.WriteAll | src/io.rs:70-87 | Appends the buffer and returns where it starts; a failed write leaves the stream alone |
| Compression.PackExact | src/executor.rs:185-214 | A node's work succeeds exactly if its payload can be serialised, a compressor is there and accepts it. The compressor is the one the node asks for, or 1 where it asks for 0 and compression is on; only the serial executor falls back to 0; and the chunk carries that compressor's output |
| Compression.PackFails | src/executor.rs:300-329 | The errors of a node's work: the serialisation's own, then a missing compressor, then a refused payload |
| Compression.NodeCompressed | src/executor.rs:311-350 | The chunk of every finished node names the compressor it was to be made with, and its payload bytes are that compressor's output |
| Compression.FileCompressed | src/executor.rs:311-350 | The same for every chunk of a written file; the root asks for compressor 0, every other node for what its place prescribes |
| Compression.ShardsLikeContainer | src/visitor_impls.rs:226-236 | Shards are compressed exactly as the container of their vector or map |
| SerialRun.NextIsSpawned | src/executor.rs:166-182 | Descending ids guarantee that every child has delivered before its parent is reached |
| SerialRun.TurnDone | src/executor.rs:235-246 | A turn appends one chunk, delivers its extent and leaves the next node ready |
| SerialRun.TurnFailed | src/executor.rs:178-236 | A failing turn reports its error and leaves the output alone |
| SerialRun.AbortedRest | src/executor.rs:263-266 | After an error every node that could still start is stopped by the abort check |
| Stored.RunIsReadable | src/executor.rs:334-384 | Any run that ends without error leaves a file whose root chunk carries the whole tree |
| Stored.TreeStored | src/executor.rs:352-384 | Every finished node's extent parses to its payload and its children's extents, recursively |
| Stored.NodeReadable | src/reader.rs:787-835 | A finished node's extent parses; each child's extent ends before it starts |
| Inspector.WalkStored | src/inspector.rs:94-98 | Recursion over a stored tree ends within as many levels as its offset allows and finds exactly the tree's contents |
| Inspector.RecursionEnds | src/inspector.rs:94-98 | On arbitrary bytes: if every chunk that can be reached lies behind its children, walking or inspecting a chunk never needs more levels than its offset and one |
| Inspector.InspectStored | src/inspector.rs:79-109 | The report on a stored tree, node by node: place, length, children, a payload size that with 16 bytes a child, 4 for a count and 1 for the last byte gives the length, and a compressor that turns those payload bytes into the job's |
| Accounting.OutputAccounted | src/io.rs:70-87 | At every moment of every run the output is as long as the chunks appended so far |
| Accounting.InspectShown | src/inspector.rs:79-109 | Inspecting a subtree of a written file ends within offset levels and reports exactly the bytes its nodes appended |
| Visitor.Visit | src/visitor_impls.rs:112-251 | Visiting lays the object's tree out in preorder at the end of the arena and gives the parent one more dependency and one more empty slot |
| Visitor.VisitRemotes | parcode-derive/src/lib.rs:177-185 | One child per remote field, in declaration order |
| Visitor.VisitItems | src/visitor_impls.rs:246-249 | A shard's children are the in-order concatenation of its items' remote fields |
| Visitor.VisitVec | src/visitor_impls.rs:176-250 | The container, its shards and everything below them, as the tree says |
| Visitor.Distribute | src/visitor_impls.rs:374-384 | Every bucket holds exactly the entries whose hash falls into it, in iteration order |
| Visitor.VisitMapShard | src/visitor_impls.rs:398-424 | Reserving the id with a placeholder and swapping the job in gives the shard's tree |
| Visitor.BuildGraph | src/api.rs:419-422 | The whole arena is the root's tree in preorder |
| Configuration.GraphConfigured | src/visitor_impls.rs:203-250 | Every node of every visited graph asks for the right compressor: shards for what their container asks for, the chunk of a remote field for what its own attribute says whatever encloses it, the root and an empty blob map for 0 |
| Graph.TaskGraph.AddNode | src/graph/core.rs:86-91 | Appends a fresh node; ids saturate at 32 bits |
| Graph.TaskGraph.LinkParentChild | src/graph/core.rs:96-122 | Counts the child, reserves the next slot, sets the child's parent and slot |
| Graph.TaskGraph.ReplaceJob | src/graph/core.rs:159-167 | Changes the job and nothing else |
| Graph.TaskGraph.RegisterChildResult | src/graph/core.rs:51-65 | Fills the slot, or reports it out of bounds and changes nothing |
| Graph.TaskGraph.TakeChildren | src/executor.rs:170-176 | Takes the slots and leaves none behind |
| Graph.AttachAppend | src/graph/core.rs:96-122 | Adding children in two batches is adding them in one |
| Shape.GraphShape | src/graph/core.rs:86-122 | Every visited graph is one tree: node 0 is the only root, parents precede children, slots are 0 to n-1 in increasing child id, the counter equals the slot count |
| Shape.LastIsLeaf | src/executor.rs:116-127 | There is always a leaf, so the "no leaves" error cannot occur |
| Sharding.ShardSizeBounds | src/visitor_impls.rs:118-170 | The estimated shard lies between half the minimum and the larger of target and one item, without overflow; unless the floor is taken there are enough shards for every core |
| Sharding.ShardSizeExact | src/visitor_impls.rs:118-170 | The shard size in figures: the largest number of items of average sampled size within 128 KB that leaves four shards to every core, at least 1, if that many reach 4 KB; otherwise the largest number within 4 KB, at least 1 |
| Trees.ShardLenExact | src/visitor_impls.rs:125-144 | The sample behind that size is the encoding of the first eight items as a vector |
| Iteration.ShardsExact | src/visitor_impls.rs:172-250 | In a stored vector every shard but the last promises exactly that many items and the last one the rest, at least one |
| Trees.NumShardsExact | src/visitor_impls.rs:361-366 | The number of buckets in figures: one for each full 2000 entries, at least 1 and at most 1024, none for an empty map |
| MapLookup.BucketCount | src/rt.rs:349-355 | A stored map has exactly that many shards, and a lookup opens the one that the key's hash chooses among them |
| Sharding.BuildRuns | src/visitor_impls.rs:178-199 | The run-length loop computes the run table |
| Sharding.ExpandRle | src/visitor_impls.rs:178-199 | Expanding the run table gives back exactly the shard lengths |
| Sharding.AtMostTwoRuns | src/visitor_impls.rs:178-199 | A vector needs at most two runs |
| Sharding.ChunkLensSum | src/visitor_impls.rs:175 | The shard lengths are positive, bounded and sum to the total |
| Sharding.ChunkLensExact | src/visitor_impls.rs:175-175 | All shards but the last are full and the last is not empty, so there are no more shards than needed |
| Sharding.RunTable | src/visitor_impls.rs:178-199 | The run table entry by entry: the full shards, then the shorter one if something is left |
| Jobs.ExecuteMapShard | src/map.rs:82-145 | The loop over entries writes the count, the hashes, the offsets and the data, or fails on a 4 GB blob |
| Layout.ShardBytes | src/map.rs:113-143 | A map shard in figures: count, four zero bytes, twelve bytes of tables for each entry, then the entries |
| Layout.ShardHashBytes | src/map.rs:97-98 | The `i`-th hash stands in the eight bytes from 8 + 8 i |
| Layout.ShardOffsetBytes | src/map.rs:100-106 | The `i`-th offset stands in the four bytes behind the hashes, and counts the bytes of the entries before it |
| Layout.ShardFails | src/map.rs:100-128 | Writing a shard fails exactly if an entry starts at 4 GB or beyond, or there are 2^32 entries |
| Format.GetChunkSafe | src/reader.rs:787-835 | On arbitrary bytes a node that parses splits its extent exactly into payload, table and meta byte; only length 0 and extents past 64 bits overflow |
| Layout.GetChunkExact | src/reader.rs:787-835 | On arbitrary bytes: exactly which extents are chunks, which node each gives, and which error the others give |
| Layout.RefAtExact | src/reader.rs:1175-1191 | On arbitrary bytes: an entry is the two eight-byte integers at 16 i in the table |
| Layout.ReadRawExact | src/reader.rs:872-887 | On arbitrary bytes: the payload is decompressed with the compressor that bits 1 to 3 name, or fails with one of three errors |
| Format.RefAtSafe | src/reader.rs:1175-1191 | The table of a parsed node is inside its extent, so only a bad index misses |
| Format.FrameRoundTrip | src/executor.rs:334-348 | Parsing a framed chunk gives back payload, child count and meta byte |
| Format.FramedRefAt | src/format.rs:168-199 | Each entry of a framed table reads back as the reference that was written |
| Format.MetaRoundTrip | src/format.rs:122-145 | The chunkable bit always survives, the compressor id exactly if it is below 8 |
| Layout.MetaBits | src/format.rs:115-146 | The last byte of a chunk bit by bit; ids past 7 lose their high bits, and bits 4 to 7 are not looked at |
| Layout.FrameBytes | src/executor.rs:334-348 | A chunk byte by byte: payload, 16 bytes for each child, four for their number, the last byte |
| Layout.TableBytes | src/format.rs:168-175 | The children table: the offset and the length of the `i`-th child stand in the 16 bytes from 16 i |
| FileHeader.OpenRoundTrip | src/format.rs:232-241 | A written file opens at the root it was written with |
| Layout.HeaderBytes | src/format.rs:219-242 | The header byte by byte: `PAR4`, 4, 0, the root's extent in eight bytes each, four zeros |
| Layout.WrittenTail | src/api.rs:425-434 | Every written file ends in those 26 bytes, and in front of them are the chunks alone |
| Layout.OpenExact | src/reader.rs:654-720 | Opening succeeds exactly on at least 26 bytes whose tail starts with those six, and takes the root from the bytes behind |
| Bincode.DecRoundTrip | src/reader.rs:903-908 | Decoding undoes encoding and leaves what follows untouched |
| Layout.UintBytes | src/reader.rs:903-908 | An integer is written as itself up to 250, then as 251, 252 or 253 and two, four or eight bytes |
| Layout.DecUintExact | src/reader.rs:903-908 | On arbitrary bytes: exactly which are integers, with 64-bit forms only where wanted |
| EncodingBounds.DecLower | src/reader.rs:574-578 | Whatever bytes decode to a value, at least as many are used as its own encoding has |
| EncodingBounds.SavedByType | parcode-derive/src/lib.rs:196-202 | Whether a shard entry leaves bytes out depends on the type of the value alone |
| Buckets.PickPairs | src/visitor_impls.rs:374-384 | A bucket holds exactly the pairs whose key hashes to it |
| Buckets.BucketsRebuild | src/reader.rs:543-581 | Inserting the buckets in order rebuilds the map, whatever the hash function |
| MapFormat.ShardTables | src/map.rs:113-143 | An assembled shard has its count, hashes, offsets and data where the readers look for them |
| MapFormat.ShardHash | src/map.rs:97-98 | The stored hash of an entry is the hash of its key |
| MapFormat.ShardEntry | src/map.rs:100-111 | The stored offset of an entry leads to its key and value |
| MapBack.ShardBack | src/reader.rs:547-580 | Reading a shard gives the right keys, and the right values exactly if they are self-contained |
| MapBack.MapTreeBack | src/reader.rs:532-582 | A non-empty sharded map comes back exactly if every value is self-contained, for every hash function and iteration order |
| MapLoading.LoadMap | src/reader.rs:532-582 | The loops of `from_node` insert exactly the entries the reader finds |
| MapLoading.LoadPromised | src/rt.rs:248-321 | The loops of the promise's `load` likewise |
| ReadBack.NodeBack | src/reader.rs:313-318 | Reading a stored tree gives the object back if and only if it loads, for every type and attribute |
| ReadBack.RemotesBack | parcode-derive/src/lib.rs:270-278 | Remote fields take one child each, in order, and leave the others alone |
| ReadBack.ItemBack | parcode-derive/src/lib.rs:303-345 | An item takes exactly the bytes and the children it contributed to its shard |
| ReadBack.ItemsBack | src/reader.rs:408-438 | Byte cursor and child iterator stay in step, item by item |
| ReadBack.ShardExhausted | src/reader.rs:431-437 | At the end of a shard both the bytes and the children are used up |
| ReadBack.VecBack | src/reader.rs:919-1029 | A stored vector is read back exactly if its items load |
| ReadBack.HeaderBack | src/reader.rs:940-958 | The container's header reads back as the item count and the shard lengths |
| Loadable.MergeValues | parcode-derive/src/lib.rs:280-286 | The struct literal is right exactly if the remote values are |
| Stitching.JobsTile | src/reader.rs:960-985 | Whatever the run table says, every slot belongs to exactly one job and no job reaches outside |
| Stitching.ExpandJobs | src/reader.rs:960-985 | Expansion accepts exactly the tables whose sum is the header's total, overflow included |
| Stitching.BulkIsLoop | src/reader.rs:464-481 | The bulk copy of a byte vector reads what the item loop would have read |
| Stitching.ReadLoop | src/reader.rs:431-437 | Items go one after the other into blank slots, and nowhere else |
| Stitching.DecodeShardIntoBuffer | src/reader.rs:1032-1061 | A shard fills exactly its own region, or fails |
| Stitching.Stitch | src/reader.rs:1000-1018 | In any processing order every slot starts blank and is filled exactly once |
| Stitching.DecodeParallelCollection | src/reader.rs:919-1029 | On arbitrary bytes and in any shard order: succeeds exactly if every shard reads, and then returns their concatenation |
| Indexing.Locate | src/reader.rs:1194-1210 | The search over shard lengths finds an item exactly if there is one |
| Indexing.LocateUnique | src/reader.rs:1194-1210 | No other shard and local index stand for the same item |
| Indexing.ResolveRleIndex | src/reader.rs:1194-1210 | The arithmetic equals the search, never divides by zero, and overflows only on tables past 64 bits |
| Iteration.Get | src/reader.rs:1107-1134 | `get` computes the item at the resolved position |
| Iteration.GetStored | src/reader.rs:1107-1134 | On a stored vector `get(i)` is the `i`-th element if the items in the shard of `i` load, and an error past the end whatever the items |
| Iteration.LenStored | src/reader.rs:1066-1074 | `len` is the number of items |
| Iteration.Iter | src/reader.rs:1138-1170 | `iter` over any stored vector starts in step with it |
| Iteration.ChunkIterator.Next | src/reader.rs:1277-1315 | On any stored vector `next` answers what `get` answers for the next index, stays at an item whose shard cannot be read, and ends at the end |
| Iteration.Drain | src/reader.rs:1277-1315 | Draining yields every element whose shard loads and stops only in a shard that does not load; if all items load it gives the vector |
| MapLookup.Get | src/rt.rs:335-418 | The scan computes the answer of the first entry with the key's hash and the key |
| MapLookup.ScanFinds | src/rt.rs:381-415 | Colliding hashes are told apart by the stored key, so the scan finds exactly the key |
| MapLookup.GetStored | src/rt.rs:335-418 | For every hash function, collisions included, order and key: `get` on a non-empty map of self-contained values answers what the map answers |
| MapLookup.GetExact | src/rt.rs:406-409 | `get` is right for every key of the map exactly if every value is self-contained |
| MapAnswers.ScanExact | src/rt.rs:374-416 | On arbitrary bytes the scan answers what the first entry says that has the hash and either the key or undecodable bytes; entries with another hash are not decoded |
| MapAnswers.KeyScanExact | src/rt.rs:498-535 | The first pass of `get_lazy` likewise, looking at keys alone |
| MapAnswers.GetDecided | src/rt.rs:335-418 | On every stored non-empty map, whatever its values: the first entry of the bucket with the key's hash that is the key or cannot be decoded decides, by the decoding of its own bytes |
| MapAnswers.GetOtherHashes | src/rt.rs:380-418 | If no key of the map has the hash, the key is absent, however many values cannot be decoded |
| MapAnswers.GetOwnEntry | src/rt.rs:388-411 | A present key without an earlier collision is answered by the decoding of its own entry and what follows it |
| MapAnswers.OwnPlace | src/visitor_impls.rs:374-384 | Every pair of the map has its place in the bucket of its key |
| MapLookup.GetOnEmpty | src/rt.rs:338-351 | On an empty map `get` divides by zero for every key |
| MapLookup.ShardFound | src/rt.rs:349-355 | The shard a lookup opens is the bucket the writer put the key into |
| Lazy.CreateReflects | parcode-derive/src/lib.rs:419-426 | The mirror of a stored object can always be created, and each promise points at its own field's chunk |
| Lazy.ReadReflects | parcode-derive/src/lib.rs:428-433 | A struct in a stream takes exactly its own local bytes and its own children |
| Lazy.MaterializeBack | src/rt.rs:100-130 | Materialising a mirror gives the object back if and only if it lazily loads |
| Lazy.LazyImpliesEager | src/rt.rs:428-430 | What loads lazily also loads eagerly |
| Lazy.PromisedMapBack | src/rt.rs:248-321 | A promised map loads if it is empty or sharded with self-contained values; a blob never does |
| LazyVectors.GetLazy | src/rt.rs:164-188 | `get_lazy` skips the preceding items of the shard and reads the target |
| LazyVectors.GetLazyStored | src/rt.rs:164-188 | On a vector of structs the mirror reflects element `i`: its promises are that element's children and no other's |
| LazyVectors.GetLazyExact | src/rt.rs:742-750 | `get_lazy` works exactly for structs, inside the bounds |
| LazyVectors.ReadingsAgree | src/rt.rs:128-188 | Loading gives the vector exactly if all items load, `get` an element if the items of its shard load, a materialised `get_lazy` an element exactly if that element lazily loads |
| LazyIteration.LazyIterator.Next | src/rt.rs:688-714 | On arbitrary files `next` answers and moves as the step of the stream model says |
| LazyIteration.StepStored | src/rt.rs:688-714 | On a stored vector, of structs or of scalars, each step answers for the next element while there is one and then ends; the shard counter never underflows |
| LazyIteration.LazyIterator.EnsureShardLoaded | src/rt.rs:650-679 | On arbitrary files says whether an item is to come and then has one loaded; a shard that cannot be loaded is skipped |
| LazyIteration.Unyielded | src/rt.rs:726-728 | Total minus yielded is what is left in the shard plus the lengths of the unread shards |
| LazyIteration.IterLazy | src/rt.rs:633-647 | The iterator exists exactly if the children can be read, and stands in front of the first shard |
| LazyIteration.DrainLazy | src/rt.rs:688-714 | Draining a stored vector gives exactly one answer for each element in order: a mirror for a struct, a missing child for a scalar; `len()` is exact after every call |
| MapLazy.GetLazy | src/rt.rs:452-599 | The two passes: find the key, then replay the preceding values |
| MapLazy.ReplayStored | src/rt.rs:546-573 | Replaying entries consumes exactly the children of their struct values; the first scalar replayed is missing its child |
| MapLazy.GetLazyStored | src/rt.rs:452-599 | In a map of structs a present key gives a mirror of its own value, whatever values stand before it; in a map of scalars it is an error; an absent key gives nothing in both |
| MapLazy.GetLazyExact | src/rt.rs:742-750 | For a present key `get_lazy` succeeds exactly if the values are structs, and its only error is the missing child; an absent key is never an error |
| MapLazy.GetLazyMaterializes | src/rt.rs:575-599 | For a present key: a scalar value gives the missing child error, and the mirror of a struct materialises to its value exactly if that value lazily loads, so values with remote fields are readable this way |
| MapLazy.GetLazyOnEmpty | src/rt.rs:455-468 | On an empty map `get_lazy` divides by zero |
| Boundaries.RemoteFieldInMapIsLost | src/map.rs:108-111 | A concrete map value with a remote field, in whatever file holds it: eager loading and `get` fail to decode it, `get_lazy` gives the value |
| Boundaries.SmallBlobIsLost | src/reader.rs:535-537 | A concrete blob map of one entry and three bytes: whatever file holds it, it reads as the empty map |
| Boundaries.DividesByZero | src/rt.rs:349-351 | Choosing the shard divides by zero exactly in the empty map |
| Boundaries.LoopExhausts | src/inspector.rs:94-98 | A concrete chunk that names itself as its child: the file opens, and inspecting, walking and loading it as a recursive struct exhaust every number of levels |
| Thresholds.ShortContainer | src/reader.rs:919-938 | Less than eight bytes are no container: length 0, no item at any index, eager or lazy; no bytes at all load as the empty vector |
| Thresholds.Container | src/reader.rs:940-985 | From eight bytes on the first eight are the length, and loading gives exactly that many items or fails |
| Thresholds.RunLimits | src/reader.rs:860-865 | The counts of a run table are 32-bit numbers |
| Thresholds.ShardCount | src/reader.rs:1032-1061 | A shard whose own count is not the table's is refused |
| Thresholds.ShardTooShort | src/reader.rs:1107-1134 | An index that the table places past the items a shard really has is refused |
| Thresholds.ShortMap | src/reader.rs:534-537 | Less than four bytes read as an empty map in all four ways |
| Thresholds.MapShardChosen | src/rt.rs:338-362 | From four bytes on: zero shards load as empty but divide a lookup; otherwise the key's shard is the child its hash chooses, and less than eight bytes of it are empty |
| Thresholds.MapShardSize | src/reader.rs:545-566 | A shard's count is its first four bytes, and the tables must follow |
| Thresholds.LookupTable | src/rt.rs:364-380 | A lookup needs the hash table alone: it fails if that does not fit, and a key whose hash is not in it is absent whatever follows |
| Examples.StructPayload | parcode-derive/src/lib.rs:225-252 | A struct's payload, byte by byte: the local fields in declaration order |
| Examples.ContainerPayload | src/visitor_impls.rs:51-60 | The payload of a vector's container |
| Examples.ShardPayload | src/visitor_impls.rs:78-82 | The payload of a vector's shard |
| Examples.MapPayloads | src/map.rs:82-145 | The payloads of a map's container and of one of its shards |
| Examples.BlobPayload | src/visitor_impls.rs:322-342 | The payload of a map outside map mode |
| Examples.FramedChunk | src/executor.rs:334-348 | A chunk with one child |
| Examples.OneChunkFile | src/api.rs:414-437 | An object with no remote fields makes a file of exactly one chunk and the header, under every schedule |
| Examples.SmallestFile | src/api.rs:414-437 | The whole file of a struct with one byte, 28 bytes as numbers |
| FileReadings.FieldInFile | parcode-derive/src/lib.rs:419-426 | Every remote vector or map field of a written struct is found behind its own promise in the lazy root of the written file |
| FileReadings.VecLookups | src/reader.rs:1107-1134 | `get` and `get_lazy` of a vector in a written file, for every index |
| FileReadings.StreamFile | src/reader.rs:1138-1170 | Opening a written vector and draining `iter` gives the elements of every shard in front of the first that does not load, and the whole vector if all items load |
| FileReadings.StreamFileLazily | src/rt.rs:688-714 | Opening a written vector and draining `iter_lazy` gives one answer for every element |
| FileReadings.MapGets | src/rt.rs:335-418 | `get` of a sharded map in a written file: division by zero if it is empty, otherwise the written map's answer if the values are self-contained |
| FileReadings.MapGetsLazily | src/rt.rs:452-599 | `get_lazy` of a sharded map in a written file: division by zero if it is empty, a mirror for a present struct, a missing child for a present scalar, nothing for an absent key |

## Left out

- LZ4, xxHash and bincode internals: compressors are any pair of functions that undo each other, the hash is any function, and bincode's standard configuration is written out for the types used.
- Serde types other than bytes, unsigned 64-bit integers, byte strings, structs, vectors and maps: no floats, options, enums, narrower or signed integers, and no UTF-8 validation of strings.
- Map keys are scalars or strings.
- mmap, file opening, `BufWriter` buffering and flushing: the stream is a byte sequence that starts empty, and a failed write appends nothing.
- Memory orderings, mutex poisoning and work stealing: steps are sequentially consistent and locks succeed.
- The parallel driver's initial spawning of leaves is part of the initial state.
- Raw pointers and `MaybeUninit`: the buffer is an array of optional slots that start blank.
- Platforms where `usize` is not 64 bits wide.
- Graphs of more than 2^32 nodes and files past 2^64 bytes, where ids and counts saturate or wrap.
- Vectors of vectors as chunked fields: the read side has no item reader for them.
- Macro token parsing and generics of the derive macro: the meaning of the generated code over field lists is modelled.
- `estimated_size`, the inspector's type hints and tree printing, `first`, `last` and `is_empty`: no further content.
- The sampling fallback to `size_of` when the sample encodes to nothing: a sample always has its length prefix.
- The position of the lazy iterator after an item that failed to read, and the partly advanced child iterator.
- Format.GetChunkSafe: `Err(Overflow)` stands for the panic of checked arithmetic; a build without overflow checks wraps `offset + length` instead and may return a node.
- SerialExecutor.SeqWriter.WriteAll: a failing write leaves the model's stream alone, whereas in the source part of the buffer may already have been passed on.
- Stitching.DecodeParallelCollection: when several shards fail, which of their errors is returned is not stated, because the workers race for it.
- Memory allocation for lengths that a corrupt file claims.
