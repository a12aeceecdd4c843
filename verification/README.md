# A verified model of the Vecodex segmented vector index

Vecodex keeps vectors in segments. A writer fills an open segment, seals it at a threshold, merges sealed
segments pair by pair under a budget, and tells a callback which segments came and went. Queued tasks upload the
segments to an object store and make searchers fetch them. A coordinator fuses the answers of several searchers. Hosts
and shards are registered under string keys in etcd. This project models that behaviour in Dafny and proves what it
guarantees, from the slot maps inside one segment to what a client of a searcher sees.

## How the pieces fit

- `SlotModel`, `EraseReach`, `Faiss`: the id maps and tombstones of one `FaissIndex`, as a value and as an object; when
  `size()` is right and when an erase reaches every vector of its id; over-fetching and filtering gives the exact nearest
  live vectors.
- `TopK`, `Search`, `Segments`: the bounded result set, brute force as the reference for search, and the `Segment` object.
- `Levels`, `IndexModel`, `IndexInvariant`, `IndexSteps`, `Traces`, `IndexRuns`: the whole index as a value. Segment objects
  live in a heap of handles, so that an object listed twice, renamed or left behind stays one object. `add`, `merge` and
  `erase` are broken into single steps; every step keeps the invariant, hence every run does.
- `ReachableStates`, `LevelSizes`, `ListLength`, `AddLaws`: what every reachable state looks like, how many levels there can
  be, how long the list is, what `add` and one call of `merge` do.
- `MergePasses`, `MergeLimits`: which pairs one pass over a level merges, told from the sizes in the row alone, and that
  `merge` leaves nothing it could still pay for. `StorageLaws`: level placement, list edits, compaction and callbacks told
  without the code that does them.
- `IndexHistory`, `MergeStations`, `IndexObject`: the `Index` class over shared `Segment` references, with the loops of the
  original, proved to do exactly what the value model does.
- `TaskQueue`, `Replication`, `ReplicationRuns`, `ReplicationTheorems`: writes and queued tasks interleave in any order;
  what the store and the searchers hold then. `WriterAlone`: the writer is where its calls alone would
  lead it. `StoredContents`: the stored objects under erases.
- `StaleDocuments`, `StaleRuns`: erases are not replicated. Exactly which runs leave a searcher in sync all the same, and
  two kinds of run that do not.
- `Codec`, `FileLayout`, `SegmentFile`, `Tasks`: the bytes of a stored segment, their layout written out byte by byte, the
  stream code that writes and reads them, and one task and one searcher update down to those bytes.
- `EndToEnd`: searching at a searcher in sync is brute force over what the writer sealed, and when a run ends in sync.
- `Cluster`: one shard with its searchers as objects, down to the bytes in the store, proved to do what the replication
  model does event by event.
- `RankFusion`, `FusionLaws`: reciprocal rank fusion.
- `Keyspace`, `Etcd`, `ShardTables`, `Shards`: the key layout against a nested registry, and the writer's shard table kept in
  step with it over every sequence of updates.

## What is taken as given

- The library under `FaissIndex` is exact: asked for m slots it returns the m nearest, padded with -1 (`Faiss.BackendAnswer`).
  Its answer is a parameter. Distances and scores are real numbers.
- The order of a hash table and the order of ties in a sort are arbitrary.
- `rand()` yields a new number at each call; a segment is named by the number of the call.
- The threshold is at least 1 (the original divides by it).
- A document id is added at most once in the life of an index. `SlotModel.SizeExactOverEveryHistory` shows that `size()` of
  one segment is right exactly under this condition, and `SlotModel.ReAddBreaksSize` gives a run that breaks it otherwise.
  Erase and search of one segment need less, and `EraseReach.EraseReachesOverEveryHistory` gives their exact condition.
- The update callback of the writer is there from the start; the index of a searcher has none (`IndexObject.Index.Push`
  covers both). Uploads, downloads and remote calls succeed; hosts and shards do not change while tasks run.
- Index and shard ids contain no slash (`Keyspace.SlashFreeIff` shows what a slash does to a shard id).
- Numbers written to a file fit their fields of 64 bits, and ids are strings of bytes (`Codec.Fits`). The library's own format reads back
  what it wrote, whatever follows (`Codec.Restoring`).

Where the comment at the head of `EtcdClient.cpp` and its code differ the model follows the code: the comment lists an error
counter among the statistics of a shard, and nothing ever writes one.

## Model

| member | source | states |
|---|---|---|
| SlotModel.SizeIsLiveCount | index/baselines/faiss.h:152 | `size()` never exceeds the number of live slots and equals it exactly when no id was mapped twice |
| SlotModel.UniqueByCount | index/baselines/faiss.h:59-66 | the id map and its inverse are mutual inverses exactly when the id map has as many entries as slots were given out |
| SlotModel.AddBatchKeeps | index/baselines/faiss.h:59-66 | adding keeps the maps total and in range, and keeps them mutual inverses exactly when the ids of the batch are distinct and new |
| SlotModel.AddBatchFields | index/baselines/faiss.h:59-66 | which ids are mapped, how many slots are given out, and that tombstones and earlier vectors stay |
| SlotModel.AddBatchSlots | index/baselines/faiss.h:59-66 | an add gives the documents of the batch the next slots in order: slot `next_id + i` bears the id and the vector of document i, and every earlier slot keeps its own |
| SlotModel.AddBatchLive | index/baselines/faiss.h:59-66 | the mapped live documents after an add are the old ones overridden by the batch, and for new ids `size()` grows by its length |
| SlotModel.EraseBatchKeeps | index/baselines/faiss.h:116-123 | erasing removes exactly the named live documents; ids that are not mapped are skipped |
| SlotModel.MergeIsUnion | index/baselines/faiss.h:92-114 | whatever order the other's table is walked in, a merge gives the union of the live documents, revives none, and the sizes add up |
| SlotModel.SizeExactOverEveryHistory | index/baselines/faiss.h:59-152 | over every sequence of add, erase and merge the maps stay well formed, and `size()` is the live count if and only if every add brought only new ids |
| SlotModel.ReAddBreaksSize | index/baselines/faiss.h:59-152 | re-adding an erased id and erasing it again makes the size computation yield -1 |
| SlotModel.MergeLive | index/baselines/faiss.h:92-114 | a merge adds the live documents of the other index whatever ids both have, the other's vector winning |
| EraseReach.EraseReachesOverEveryHistory | index/baselines/faiss.h:59-123 | over every sequence of add, erase and merge: whatever id is erased next, no live slot bears it then, if and only if every add, at a call or in a merge, brought distinct ids of which none was live at that moment |
| EraseReach.EraseBatchReaches | index/baselines/faiss.h:116-123 | when every live slot is the one its id leads to, an erase of many ids leaves exactly the live slots that bear none of them; an erase never spoils or mends that condition |
| EraseReach.NewIsNotLive | index/baselines/faiss.h:59-66 | the condition for `size()` implies the condition for erases |
| EraseReach.ErasedMayReturn | index/baselines/faiss.h:59-123 | adding an erased id again keeps every erase in reach although it breaks the condition for `size()`, so the two conditions differ |
| EraseReach.ReAddOutlivesErase | index/baselines/faiss.h:59-123 | a run of two adds of one id after which an erase of the id leaves a live vector that bears it |
| Faiss.OverfetchSuffices | index/baselines/faiss.h:68-82 | asking for k plus the number of tombstones leaves k live slots after filtering, or all there are |
| Faiss.CutIsNearest | index/baselines/faiss.h:68-90 | sorting the survivors and cutting at k gives the k nearest live slots |
| Faiss.CutIsFirst | index/baselines/faiss.h:83-89 | of live slots at equal distance the lower ones come first and are the ones kept: every live slot of the answer that is left out stands after every slot returned, by distance and then slot |
| Faiss.FaissIndex.constructor | index/baselines/faiss.h:25 | a new index has no slots |
| Faiss.FaissIndex.AddBatch | index/baselines/faiss.h:59-66 | the loop does what the value model does |
| Faiss.FaissIndex.EraseBatch | index/baselines/faiss.h:116-123 | the loop does what the value model does |
| Faiss.FaissIndex.CollectLive | index/baselines/faiss.h:98-107 | the keys collected are exactly the live slots of the other index, each once |
| Faiss.FaissIndex.MergeFromOther | index/baselines/faiss.h:92-114 | the result is the value model's merge for the order the table was walked in; the other index is unchanged |
| Faiss.FaissIndex.Filter | index/baselines/faiss.h:74-82 | the survivors are the live slots of the answer with their distances |
| Faiss.FaissIndex.Cut | index/baselines/faiss.h:84-89 | the first min(k, survivors) come back with their ids and distances |
| Faiss.FaissIndex.SingleSearch | index/baselines/faiss.h:68-90 | the hits are the k nearest live slots, or all of them, in order of distance, the lower slot first among equals |
| TopK.HitOrder | index/include/Segment.h:101-103 | the order on results is a strict total order: the smaller distance first, and at equal distance the id that is a proper prefix of the other or has the smaller character at the first difference |
| Prelude.LessIsPrecedes | index/include/Segment.h:101-103 | `<` on ids holds exactly when the first is a proper prefix of the second or has the smaller character at the first difference |
| TopK.Offer | index/include/Index.h:77-82 | offering a result to the bounded set keeps the k least of everything offered so far |
| TopK.Arrange | index/baselines/faiss.h:83 | a sorted arrangement of the elements, each once, ties in any order |
| Search.SlotsToDocs | index/include/Segment.h:51-64 | the nearest live slots are the nearest live documents |
| Search.OfferAll | index/include/Index.h:76-83 | offering a whole segment answer keeps the k least of everything offered |
| Search.OmittedIsFarther | index/include/Index.h:71-99 | over overlapping segments that together hold the documents, an omitted document is no closer than a kept one |
| Search.KeptIsNearest | index/include/Index.h:71-99 | the k least of the segment answers are k nearest documents of the whole |
| Search.ReadOff | index/include/Index.h:94-98 | the ids come out nearest first, by id at equal distance, distinct, are exactly the ids of what was kept, and no omitted document is strictly closer |
| Search.KeptIsForemost | index/include/Index.h:77-98 | whatever a segment found and is not returned stands after everything returned, by distance and then id |
| Segments.Segment.constructor | index/include/Segment.h:17-21 | a new segment is empty and bears its name |
| Segments.Segment.AddVectorBatch | index/include/Segment.h:41-44 | the slots of the batch are added; the segment's maps stay mutual inverses if and only if they were and the ids are new and distinct, and then exactly the documents of the batch join |
| Segments.Segment.DeleteBatch | index/include/Segment.h:46-49 | the slots the ids lead to are marked; when every live slot is the one its id leads to exactly the slots that bear the ids go, and when no id was repeated exactly the named documents leave |
| Segments.Segment.MergeSegment | index/include/Segment.h:66-72 | the live slots of the other are added in some order; when no id was met here before, the live documents become the union; the other is unchanged |
| Segments.Segment.GetSize | index/include/Segment.h:89 | the size, which is the number of live slots if and only if no id was repeated, and then the number of live documents |
| Segments.Segment.SearchQuery | index/include/Segment.h:51-64 | for every id among the k nearest live slots the distance of the farthest of them that bears it, the slots chosen by distance and then slot; these are k nearest live documents when every live slot is the one its id leads to |
| Segments.ToMap | index/include/Segment.h:58-63 | the hash map has exactly the ids of the hits, each with the distance of its last hit |
| Levels.PlaceBag | index/include/IIndex.h:112-126 | placing a segment adds it once to what the levels hold and moves nothing out |
| Levels.PromoteBag | index/include/IIndex.h:142-149 | promoting a pair takes the right segment out of the levels and nothing else |
| Levels.CompactedBag | index/include/IIndex.h:176-187 | compaction removes every null slot and no segment |
| IndexModel.PassShrinks | index/include/IIndex.h:131-151 | a pass changes nothing or leaves fewer segments, which is why `merge` ends although it appends levels |
| IndexSteps.RemoveNamedCount | index/include/IIndex.h:155-168 | the list edit removes, per erased name, one entry that bears it, and no other |
| IndexSteps.PairSizeAdds | index/include/IIndex.h:137-140 | the size of a product is the sum of the sizes of its pair |
| IndexSteps.PairIsNew | index/include/IIndex.h:131-151 | a product of a pass is never merged again in the same pass |
| IndexRuns.PutKeepsInv | index/include/Index.h:46-62 | a document going in, and the sealing it may cause, keep the invariant |
| IndexRuns.FlushAddKeepsInv | index/include/Index.h:63-65 | the callback after filling keeps the invariant |
| IndexRuns.PairKeepsInv | index/include/IIndex.h:137-150 | merging a pair, with the renaming, keeps the invariant |
| IndexRuns.FlushPassKeepsInv | index/include/IIndex.h:152-174 | the edit of the list and the callback after a pass keep the invariant |
| IndexRuns.CompactKeepsInv | index/include/IIndex.h:176-187 | compaction keeps the invariant |
| IndexRuns.EraseKeepsInv | index/include/Index.h:101-107 | an erase keeps the invariant for the documents that remain |
| IndexRuns.StepKeepsInv | index/include/IIndex.h:112-188 | every step of every operation keeps the invariant |
| IndexRuns.AddRuns | index/include/Index.h:42-69 | an add is a run of steps without erases that ends idle |
| IndexRuns.EveryRunServesThePlainMap | index/include/Index.h:42-107 | after every run of adds and erases, whatever merges they set off, the list and the open segment serve exactly the documents added and not erased |
| ReachableStates.LevelsListAndCallbacksAgree | index/include/IIndex.h:112-188 | in every reachable state the slots of the levels hold disjoint documents and are listed, one slot serves all that a listed segment serves, the counter counts the slots, and folding the callbacks gives the names in the levels |
| LevelSizes.LevelsBoundSizes | index/include/IIndex.h:112-126 | in every reachable state a segment of level i has at most 2^(i+1) documents, and the top level is in use |
| LevelSizes.FewLevels | index/include/IIndex.h:112-150 | without erases and with a threshold of at least 2, segments of level i exceed 2^i, and 2^(levels-1) is below the number of sealed documents |
| ListLength.RemovePairs | index/include/IIndex.h:155-168 | of each pair of names that a merged pair leaves behind, one entry of the list goes |
| ListLength.ListNeverShrinks | index/include/IIndex.h:152-168 | in every reachable state the list has one entry per segment ever sealed, so merging never shortens what search and erase walk, and the recorded size is the threshold times that number |
| ListLength.ProductsAtTheEnd | index/include/IIndex.h:152-168 | the list edit after a pass takes its entries from the old part of the list and leaves the products at its end in order |
| AddLaws.SplittingAnAdd | index/include/Index.h:42-69 | without merging, adding two batches together or one after the other gives the same state |
| AddLaws.BatchIsPutAll | index/include/Index.h:46-61 | a batch that fits the open segment does what its documents do one at a time |
| AddLaws.FillingSeals | index/include/Index.h:46-62 | filling seals segments of exactly the threshold, lists and announces them in order, and loses no document in the count |
| AddLaws.AddHasRoom | index/include/Index.h:47-51 | in every reachable state the open segment has room, so the empty-batch error is never met |
| AddLaws.BatchRound | index/include/Index.h:46-61 | each round takes a batch that is not empty and leads on as documents one at a time would |
| AddLaws.MergeSpendsItsBudget | index/include/IIndex.h:127-188 | one merge is a run of pair merges and list edits only; the sizes of the merged pairs and the rest add up to the budget, no product exceeds it, each merge takes one segment away, and no null slot remains |
| MergePasses.PassTakesGreedyPairs | index/include/IIndex.h:131-151 | a pass over a level merges exactly the disjoint neighbours found by going left to right and taking each pair whose sizes fit what is left of the budget; it nulls exactly their slots, appends the products to the next level, renames them in order, and spends the sum of their sizes |
| MergeLimits.PassesSettle | index/include/IIndex.h:127-174 | when the passes stop with budget left, any two segments of any level with only nulls between them have more live documents together than is left |
| MergeLimits.PairLifts | index/include/IIndex.h:139-149 | merging a pair raises the sum of level times size over the levels by exactly the size of the pair |
| MergeLimits.CostIsLift | index/include/IIndex.h:127-174 | so over any run of pair merges and list edits that sum grows by what the merges cost |
| MergeLimits.AddIsThorough | index/include/Index.h:66-68 | after every add in every reachable state, with merging on: between 0 and 200 documents moved up a level, with m < 200 moved the sizes of any two neighbours in a level exceed 200 - m, and no null slot is left |
| StorageLaws.PowersOfTwo | index/include/IIndex.h:116 | the bounds of the levels are the powers of two: 1, 2, and a product for a sum of exponents |
| StorageLaws.PlacedByItsSize | index/include/IIndex.h:112-126 | a segment of up to 2 documents joins level 0 and one of s > 2 the level i with 2^i < s <= 2^(i+1), at its end; levels are added as needed and no other level changes |
| StorageLaws.NullsGoInOrder | index/include/IIndex.h:176-187 | compaction maps the empty level and a null to nothing, a segment to itself, and works on the parts of a level separately |
| StorageLaws.FirstBearerGoes | index/include/IIndex.h:155-168 | an erased name takes the first entry of the list that bears it, and nothing if none does |
| StorageLaws.PassAnnounces | index/include/IIndex.h:169-174 | after a pass that merged there is one callback, with the names of each pair, the right one first, and the products in order; after a pass that merged nothing there is none |
| StorageLaws.FillAnnounces | index/include/Index.h:63-65 | after filling there is one callback with exactly the newly listed segments and no names, or none when nothing was sealed |
| IndexHistory.ReachedAdd | index/include/Index.h:42-69 | an add of new ids leads from a reachable state to a reachable state |
| IndexHistory.ReachedErase | index/include/Index.h:101-107 | so does an erase |
| IndexObject.Index.constructor | index/include/Index.h:23-40 | a new index has one open segment and stands for no documents |
| IndexObject.Index.StorageAdd | index/include/IIndex.h:112-126 | the segment goes to the level of its size; counter and size go up |
| IndexObject.PlaceRef | index/include/IIndex.h:113-125 | the loop that finds the level does what the value model does on references |
| IndexObject.PromoteRef | index/include/IIndex.h:142-148 | moving a pair up does what the value model does on references |
| IndexObject.DropNamed | index/include/IIndex.h:155-168 | the edit of the list does what the value model does on references |
| IndexObject.Index.Fill | index/include/Index.h:46-62 | the loop of add reaches the value model's state and collects the sealed segments |
| IndexObject.Index.SealOpen | index/include/Index.h:56-61 | the full segment moves to the levels and the list, and a new one is opened |
| IndexObject.Index.MergeSlots | index/include/IIndex.h:140-150 | the left object absorbs the right one, draws a new name and moves up |
| IndexObject.Index.PassTurn | index/include/IIndex.h:131-151 | one turn merges the pair and pays for it if it fits the budget, and else does nothing |
| IndexObject.Index.PassLevel | index/include/IIndex.h:131-151 | the inner loop reaches the end of the value model's pass |
| IndexObject.Index.SyncList | index/include/IIndex.h:152-168 | products join the list and one entry per erased name leaves it |
| IndexObject.Index.Notify | index/include/IIndex.h:169-172 | one callback is made with the names and objects collected |
| IndexObject.Index.MergeAll | index/include/IIndex.h:127-188 | the outer loop and the compaction reach the value model's merge |
| IndexObject.Index.DropNullSlots | index/include/IIndex.h:176-187 | the null slots go and everything else stays in order |
| IndexObject.Index.Add | index/include/Index.h:42-69 | the object stands for the value model's add of the documents, and stays valid; with merging on at most 200 documents moved up a level, and when m < 200 did, the sizes of any two neighbours in a level add up to more than 200 - m |
| IndexObject.Index.Erase | index/include/Index.h:101-107 | the object stands for the documents that were not named, and stays valid, although the list repeats objects |
| IndexObject.Index.SearchOver | index/include/Index.h:71-99 | over a list and an open segment that together cover the documents, search returns the k nearest by distance and then id, and what a segment found and is not returned comes after all of them |
| IndexObject.Index.SearchNearest | index/include/Index.h:71-99 | in every state reached by adds and erases, search is brute force over the documents added and not erased, ordered by distance and then id |
| IndexObject.Index.Push | index/include/Index.h:129-137 | a fetched segment joins the levels and the list, and the callback, if there is one, is called with it alone |
| IndexObject.Index.FindSegment | index/include/Index.h:139-149 | true exactly when some entry of the list has the name; removes nothing |
| TaskQueue.FetchFinds | app/src/Writer.cpp:96-132 | what a task publishes is in the store, as it is now, when the searchers fetch it |
| ReplicationRuns.WriteKeeps | app/src/Writer.cpp:76-136 | every step of a write keeps the invariant of the queue, the store and the searchers |
| ReplicationRuns.TaskKeeps | app/src/Writer.cpp:76-136 | running the oldest task keeps it |
| ReplicationRuns.AnnouncedIsStored | app/src/Writer.cpp:98-132 | every announced name is in the store with the contents of its segment now, and is not among the names deleted with it |
| ReplicationTheorems.DrainedStore | app/src/Writer.cpp:98-116 | with the queue empty the store has one object per segment of the levels, under its current name |
| ReplicationTheorems.DrainedContents | app/src/Writer.cpp:98-116 | without erases each object has the contents of its segment |
| ReplicationTheorems.SearcherInventsNothing | app/src/Searcher.cpp:82-99 | at any moment a searcher serves only documents the writer has sealed |
| ReplicationTheorems.SearcherLosesNothing | app/src/Searcher.cpp:82-99 | with the queue empty a searcher serves every live document the writer has sealed |
| ReplicationTheorems.DrainedInSync | app/src/Searcher.cpp:82-99 | with the queue empty and no erase a searcher serves exactly the sealed documents |
| ReplicationTheorems.TasksDrain | app/src/Writer.cpp:76-136 | as many task steps as tasks empty the queue and change nothing else at the writer |
| ReplicationTheorems.EveryAnnouncementIsStored | app/src/Writer.cpp:98-132 | after every interleaving the oldest task can run, and each object it announces is then in the store as it is now, under a name it does not delete |
| ReplicationTheorems.EveryQueueDrains | app/src/Writer.cpp:76-136 | after every interleaving as many task steps as tasks empty the queue and change nothing else at the writer |
| ReplicationTheorems.EveryInterleavingReplicates | app/src/Writer.cpp:76-136 | for every interleaving of calls and tasks: the store and the searchers as above |
| ReplicationTheorems.EraseFreeInterleavingsAgree | app/src/Writer.cpp:76-136 | for every interleaving without erases: with the queue empty the contents of the store and what every searcher serves are exactly the writer's |
| StoredContents.DrainedObjectsHold | app/src/Writer.cpp:98-116 | for every interleaving that ends with the queue empty, erases included: each segment of the levels is its stored object without the documents erased, and the two are equal if and only if no document of the object was erased |
| WriterAlone.WriterIgnoresTasks | app/src/Writer.cpp:76-136 | for every interleaving the writer's index, its documents and what a subscriber holds are what the calls alone lead to, and the queue is the callbacks of the calls without the oldest ones |
| WriterAlone.WriterSoundUnderTasks | index/include/IIndex.h:112-188 | so in every interleaving the writer serves exactly the documents added and not erased, its levels, list, counter and callbacks agree, and the levels bound the sizes |
| StaleDocuments.TaskStale | app/src/Writer.cpp:96-132 | running a task makes no document stale and cures none, where stale means erased and at the searcher or on its way to it |
| StaleDocuments.EraseEventStale | index/include/Index.h:101-107 | an erase leaves nothing stale if and only if nothing was and no named document is served by the searcher or held by a queued task in an object that is off the list |
| StaleDocuments.InSyncIffErasesReach | app/src/Writer.cpp:76-136 | for every interleaving that ends with the queue empty: a searcher serves exactly the live sealed documents if and only if no erase of the run named a document that it served then, or that a queued task held in an object off the list and not open |
| StaleRuns.StaleSearcher | app/src/Writer.cpp:76-136 | a run of three events after which a searcher serves an erased document: it was erased after it was published |
| StaleRuns.CapturedDocumentReturns | index/include/IIndex.h:155-172 | a run after which a searcher serves a document that was erased before anything was published: the merge takes its segment off the list, the erase misses it, and the queued task publishes it |
| EndToEnd.SearchReplica | index/include/Index.h:71-99 | a search at a searcher in sync is brute force over the live documents the writer sealed, although the searcher keeps every superseded segment |
| EndToEnd.SearchAfterRun | index/include/Index.h:71-99 | so is a search after every interleaving that drained the queue and whose erases all reached their documents |
| EndToEnd.ObjectIsTheWriter | app/src/Writer.cpp:76-136 | an index object that made the calls of an interleaving holds the state of the writer there, and what is queued there is the end of what the object reported |
| Cluster.NotifyAll | app/src/Writer.cpp:118-132 | the loop over the hosts makes every searcher fetch the added names, and each changes only its own index |
| Cluster.Start | app/src/Writer.cpp:9-20 | a writer without documents and searchers without segments stand for the replication model before anything happened |
| Cluster.Cluster.Write | app/src/Writer.cpp:61-63 | after an add the objects stand for the model after one more call, and the searchers are untouched |
| Cluster.Cluster.Remove | index/include/Index.h:101-107 | so they do after an erase |
| Cluster.Cluster.RunOldest | app/src/Writer.cpp:76-136 | so they do after the oldest task put its bytes, deleted names and told every searcher; nothing happens when none is queued |
| Cluster.Cluster.SearchAt | index/include/Index.h:71-99 | after any such calls with the queue empty and all erases in reach, a search at a searcher object is brute force over the live documents the writer sealed |
| Tasks.PutSegments | app/src/Writer.cpp:98-108 | every segment goes into the store as bytes that read back as the segment, under its name of now |
| Tasks.DeleteNames | app/src/Writer.cpp:110-116 | exactly the named objects go |
| Tasks.RunCallback | app/src/Writer.cpp:96-125 | the bytes in the store stand for the value model's store after the queued callback, and the names sent are those of the segments and the deletions |
| Tasks.Searcher.ProcessUpdateRequest | app/src/Searcher.cpp:82-99 | the searcher's index stands for the value model's fetch of the added names; deleted names change nothing |
| StorageLaws.FetchListsWhatItFinds | app/src/Searcher.cpp:82-99 | an update lists exactly the objects found, in the order of the names, puts each in the levels once, counts them and adds their sizes; nothing leaves |
| RankFusion.EarlierScoresHigher | app/include/Merging.h:14-16 | an earlier rank scores strictly higher |
| RankFusion.ScoreOfRank | app/include/Merging.h:12-16 | rank r, counted from 0, scores 1 / (61 + r) |
| RankFusion.ScoreByRank | app/include/Merging.h:22-33 | the score of an id is the sum over the ranks r of the number of answers that have it at r, divided by 61 + r |
| RankFusion.IdsMentioned | app/include/Merging.h:22-33 | the ids of the answers are those at some rank of some answer |
| RankFusion.Tally | app/include/Merging.h:20-33 | the table has exactly the ids mentioned, each with the sum of its scores |
| RankFusion.SortByScore | app/include/Merging.h:35-42 | the ids by falling score, each once, ties in any order |
| RankFusion.MergeSearcherAnswers | app/include/Merging.h:18-49 | min(requested, distinct ids) distinct ids by falling score (the sum of 1 / (61 + rank), by `ScoreByRank`), only ids some answer mentions, all of them if fewer come back than requested, and no omitted id scores higher than a returned one |
| FusionLaws.ScoreIgnoresOrder | app/include/Merging.h:22-33 | the score of an id does not depend on the order of the answers |
| FusionLaws.LoneAnswerReturned | app/include/Merging.h:18-49 | a single answer without duplicates comes back as its own prefix |
| FusionLaws.DominatorPrecedes | app/include/Merging.h:18-49 | an id that stands before another in every answer holding the other precedes it in the result |
| FusionLaws.MoreAnswersOutscore | app/include/Merging.h:12-33 | an id in more than m answers at ranks up to r strictly outscores an id in at most m answers when m*r < 61 |
| FusionLaws.BoundIsTight | app/include/Merging.h:12-33 | for every m and r with m*r >= 61 there are answers where it does not |
| FusionLaws.MoreAnswersWinIff | app/include/Merging.h:12-33 | so the bound is exact |
| Codec.ParseNatBack | index/baselines/io.h:4-24 | a fixed-width number reads back, with whatever follows left |
| Codec.ParseStringBack | index/baselines/io.h:4-24 | so does a length-prefixed string |
| Codec.SlotsBack | index/baselines/faiss.h:131-150 | so do the vectors, the next id, the two maps and the tombstones, for any order of the tables |
| Codec.DecodeEncode | index/baselines/IndexFactory.h:56-87 | reading a stored segment followed by anything gives the segment back and stops right behind it; the bytes themselves are those of `FileLayout.EncodeIsFile` |
| Codec.EncodePrefixFree | index/baselines/IndexFactory.h:56-61 | where two stored segments with what follows agree as bytes, the segments and what follows agree |
| Codec.UnknownType | index/baselines/IndexFactory.h:73-87 | an unknown type yields no segment, and only the type is consumed |
| FileLayout.SlotIsWord | index/baselines/io.h:4-13 | a number is written as eight bytes, the low one first |
| FileLayout.FieldsHold64Bits | index/baselines/io.h:4-13 | what fits such a field are the numbers below 2^64 |
| FileLayout.StringIsNamed | index/baselines/io.h:4-13 | a string is written as its length in eight bytes and then its characters |
| FileLayout.TagIsLiteral | index/baselines/IndexFactory.h:56-61 | the type is written as 0,0,0,0 for the flat and 1,0,0,0 for the HNSW index |
| FileLayout.EncodeIsFile | index/baselines/faiss.h:131-150 | a stored segment is, in this order: the type, the library's own bytes, the next id, the number of ids and each id with its slot, the number of slots and each slot with its id, the number of tombstones and each of them, the name |
| FileLayout.FileReadsBack | index/baselines/IndexFactory.h:73-87 | bytes laid out so, followed by anything, read back as the segment with what follows left |
| SegmentFile.File.WriteNat | index/baselines/io.h:4-13 | appends the bytes of the number |
| SegmentFile.File.WriteString | index/baselines/io.h:4-13 | appends the length in eight bytes, the low one first, and then the characters |
| SegmentFile.File.ReadNat | index/baselines/io.h:14-24 | reads what the bytes ahead say and moves behind them |
| SegmentFile.File.ReadString | index/baselines/io.h:14-24 | reads a string and moves behind it |
| SegmentFile.WriteIds | index/baselines/faiss.h:134-138 | writes the table in some order of its keys |
| SegmentFile.WriteInv | index/baselines/faiss.h:140-144 | writes the inverse table in some order of its keys |
| SegmentFile.WriteErased | index/baselines/faiss.h:146-149 | writes the tombstones in some order |
| SegmentFile.SerializeIndex | index/baselines/faiss.h:131-150 | writes the format for the orders the tables were walked in |
| SegmentFile.SerializeSegment | index/baselines/IndexFactory.h:56-61 | appends the layout of `FileLayout.EncodeIsFile` byte by byte, for the orders the tables were walked in |
| SegmentFile.ReadIds | index/baselines/faiss.h:29-37 | the loop builds the table the bytes describe |
| SegmentFile.ReadInv | index/baselines/faiss.h:38-46 | the loop builds the inverse table |
| SegmentFile.ReadErased | index/baselines/faiss.h:47-53 | the loop builds the set of tombstones |
| SegmentFile.ReadIndex | index/baselines/faiss.h:27-54 | a new index with the contents the bytes describe |
| SegmentFile.ReadSegment | index/include/Segment.h:29-33 | a new segment around it with the name that follows |
| SegmentFile.DeserializeSegment | index/baselines/IndexFactory.h:73-87 | the segment the bytes describe, or none for an unknown type |
| SegmentFile.Ship | index/baselines/IndexFactory.h:56-87 | a segment sent through a file arrives with the same contents and name, and what follows is left for the next reader |
| Keyspace.PathPrefix | app/src/EtcdClient.cpp:33-60 | below a slash-free first part a key is a prefix of another exactly when the rest is |
| Keyspace.JoinSplit | app/src/EtcdClient.cpp:94-97 | splitting at slashes loses nothing and leaves no slash |
| Keyspace.UpdateKeeps | app/src/EtcdClient.cpp:42-64 | adding or removing a host or recording a time does to the keyspace what it does to the registry |
| Keyspace.ListingsMatchTheRegistry | app/src/EtcdClient.cpp:33-108 | after any updates the prefix listings and the split keys tell exactly the hosts, the shards and the times of the registry |
| Keyspace.SlashFreeIff | app/src/EtcdClient.cpp:50-52 | a shard is listed under its own name if and only if the name has no slash |
| Keyspace.TimedShardStaysListed | app/src/EtcdClient.cpp:50-64 | once a response time was recorded for a shard it stays listed, whatever hosts are removed |
| Etcd.EtcdClient.AddSearcherHost | app/src/EtcdClient.cpp:42-44 | the store gains the key of the host, and the registry the host |
| Etcd.EtcdClient.RemoveSearcherHost | app/src/EtcdClient.cpp:46-48 | the store loses the key of the host, the registry the host, and both nothing else |
| Etcd.EtcdClient.UpdateAverageResponseTime | app/src/EtcdClient.cpp:62-64 | the store holds the printed time under the key of the shard, and the registry records it |
| Etcd.EtcdClient.GetAllValues | app/src/EtcdClient.cpp:67-83 | one value per key below the path, each the value stored there |
| Etcd.EtcdClient.ListAllKeys | app/src/EtcdClient.cpp:85-108 | the parts at the level over all keys below the path, or an error exactly when a key is too short |
| Etcd.EtcdClient.ListSearcherHosts | app/src/EtcdClient.cpp:33-40 | with a shard, each of its hosts once; without, the hosts of the index together with the recorded times |
| Etcd.EtcdClient.ListShardIds | app/src/EtcdClient.cpp:50-52 | the shards with a host or a recorded time, and never an error |
| Etcd.EtcdClient.GetSearcherAverageResponseTime | app/src/EtcdClient.cpp:54-60 | the recorded time read back, or 0.0 when none is recorded |
| ShardTables.AgainChangesNothing | app/src/Writer.cpp:138-190 | reconciling twice with one listing changes nothing the second time |
| ShardTables.ObjectKeptIffListed | app/src/Writer.cpp:138-190 | in every such history a shard has the same index object at two moments if and only if every registry consulted in between listed it |
| ShardTables.ReturnsWithNewObject | app/src/Writer.cpp:138-190 | a shard that was gone in between comes back with an object that no table before the gap had, so its documents are lost |
| Shards.Writer.UpdateIndex | app/src/Writer.cpp:140-188 | one index ends with exactly the listed shards, keeps the objects it had and gets new empty ones; a bucket is made exactly when the index is new and has a listed shard |
| Shards.Writer.UpdateIndexesState | app/src/Writer.cpp:138-190 | every configured index is reconciled with the registry, other indexes are untouched, no two shards share an object, buckets are added for exactly the configured indexes that were not there and have a listed shard, and the update extends the history of tables |

## Left out

- Approximate search (the HNSW base index), floating-point rounding and 64-bit overflow of sizes and counters.
- `async_add`, `async_erase`, `async_search` and the executor threads.
- Locks: each operation and each task is one atomic step, as the locks make it.
- Object-store, etcd and RPC failures: the original marks them as open points and has no recovery to state.
- Searchers that join late, and shards removed while tasks are queued.
- Truncated files: the original leaves the fields it could not read as they were; the model reports too few bytes instead.
- The remote call itself: `Cluster` hands the update to each searcher in turn.
- The delete branch of a write request, the choice of a shard, the response-time statistics, eviction of hosts.
- How response times are printed and read: both are parameters.
- `CreateIndex` and configuration parsing, metrics, command-line tools, the Kubernetes operator and the load scripts.
- Tasks.Searcher.ProcessUpdateRequest: a name missing from the store is skipped, because downloads are taken to succeed; `ReplicationRuns.AnnouncedIsStored` shows that announced names are there.
- SegmentFile.File.ReadNat: a short read yields an error, where the original leaves the number as it was.
- SegmentFile.File.ReadString: the same.
- IndexObject.Index.Add: asks that the ids are new, as the whole model of the index does; `Segments.Segment.AddVectorBatch`, `SlotModel` and `EraseReach` treat ids that are not.
- TopK.Arrange: stands for `std::sort`; how the library sorts is not modelled.
- IndexObject.Index.SearchNearest: asks that each id was added once, as the whole model of the index does; re-added ids are treated in `SlotModel`, `EraseReach` and `Segments` only.
- Cluster.Cluster.Write: asks the same.
- Cluster.Cluster.RunOldest: asks that the segments to upload fit the fields of the file format, as said above.
