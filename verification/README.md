# A verified model of Gorse's stateful algorithms

Gorse is a recommender system. A master loads users, items and feedback from a
database, trains models and publishes them through a blob store and a vector
store; workers pull the models, compute recommendations and cache them; servers
answer requests from the caches and from a chain of fallback recommenders. This
project models the parts whose correctness depends on state that is built up step
by step, and proves what each of them keeps over every run and every input.

| module | models |
|---|---|
| `SparsePruner` | the bounded binary heap behind sparse vectors, with sift-up and sift-down written out, and appending ids to a pruned vector |
| `VectorWriter` | the batched writer of similarity vectors: majority dimension, in-place compaction, collection recreation, retry after failures |
| `ModelCollector` | the removal of out-of-date models from the blob and vector stores |
| `ModelLifecycle` | training, publishing, restarting, collecting, `Sync` and `Pull` as one protocol of atomic steps |
| `ModelPublication`, `ModelRuns` | when published models survive every run of the protocol, and runs in which they do not |
| `FeedbackMerge` | the merge of negative, positive and read feedback into rows for click-through training |
| `CasMaximum` | the compare-and-swap maximum inside that merge, under every interleaving |
| `LabelIndexer` | the one-pass index of labels that occur at least twice |
| `GroupPush` | the streaming group-by that pushes items to the non-personalized recommenders |
| `Dictionary`, `Dataset` | the frequency dictionary, the index, the two transposed adjacency lists, and both splits |
| `Binary`, `UnifiedIndex` | little-endian integers, the five encoders, and the serialised index |
| `DumpRestore` | the framed dump stream and the nested state machine that restores it |
| `Recommender` | the exclude set threaded through the chain of recommenders |
| `Digest`, `Freshness` | the configuration hash, the digest of the chain, and the freshness of cached recommendations |
| `Replacement` | the item cache, replacement candidates and their decay |
| `Collections` | options and choosing from a set |

Code that changes state is a class or a loop here as well, proved equal to a
function on values; the properties are then proved about the function for all
inputs, runs and failures. A database that may fail is a parameter saying which
calls fail; random choices, sort results and the iteration order of maps are
parameters too, so the results hold for all of them. Timestamps, weights and
scores are integers or reals.

What the proofs brought to light, each shown by a lemma:

- After a failed flush, an `Add` whose vector is refused returns without an error
  while the buffer still holds a full batch (`VectorWriter.FullBufferAfterRejectedAdd`);
  `VectorWriter.BufferBound` says exactly when the bound holds.
- A training that fails between creating its blob and recording its id leaves a
  complete-looking pair behind that takes the place of the previous model among the
  two newest (`ModelRuns.OrphanDisplacesPrevious`). The previous model survives a
  run if and only if every collection finds nothing complete between it and the
  current one (`ModelPublication.PreviousFactorsServable`); otherwise a collection in
  which no call fails removes it (`ModelPublication.CollectionRemovesPrevious`).
- The click model's id is visible in memory before it is recorded. If recording
  fails, the collection can remove the recorded model's blob, and a restart then
  publishes an id without a blob (`ModelRuns.RestartRevivesCollectedClick`). The
  published click model has its blob throughout a run if and only if every restart
  finds the recorded id's blob (`ModelPublication.PublishedClickServable`).
- `Pull` reads the target id again when it installs, so a `Sync` in between files
  one model's factors under the next id (`ModelRuns.RacingSyncMixesModels`).
- The entry that is filled in for a label's first occurrence carries the value of
  the second, so an owner's values are kept if and only if it does not own the first
  occurrence or the first two values are equal (`LabelIndexer.ValuesKeptIff`).
- Without a ranker, what a source returns beyond the cache size is cut off but stays
  excluded, so the fallback cannot return it although places are left
  (`Recommender.CutOffItemIsLost`). If places are left, the fallback misses something
  if and only if it was cut off (`Recommender.FallbackFillsExceptCutOff`).
- User-to-user recommendation selects the best items before it looks up which of them
  are hidden, so hidden items take places (`Recommender.UserToUserRanksBySum`).
- The digest comparison does not depend on the order in which the ranker lists its
  recommenders, because the hash function sorts its arguments, but a recommender
  listed twice makes every cached recommendation stale at once
  (`Freshness.DigestAgreesIffNoRepeats`). `Validate` refuses neither repeats nor
  user-to-user or external recommenders of the same name (`Freshness.Validate`).
- A user without a stored collaborative digest is fresh if and only if the ranker does
  not list the collaborative recommender (`Freshness.MissingCollaborativeDigest`); an
  empty list includes it even if collaborative filtering is switched off.
- Replacement puts an item with negative feedback back among the candidates if it
  has read or positive feedback too (`Replacement.NegativeItemsCanReturn`); the
  chain that serves requests still filters it out
  (`Recommender.NeverRecommendsNegative`).
- An empty record would read as the end of the dump (`DumpRestore.EmptyRecordEndsRestore`),
  and reading an index back fails if its last name is empty and the stream ends
  there with a reader that reports the end for an empty read
  (`UnifiedIndex.IndexRoundTrip`).

## Model

| member | source | states |
|---|---|---|
| `SparsePruner.Up` | logics/vector_writer.go:209-236 | sifting up restores the heap order whenever only the moved slot may violate it, and permutes the entries |
| `SparsePruner.Down` | logics/vector_writer.go:209-236 | sifting down restores the heap order below a replaced root, and permutes the entries |
| `SparsePruner.HeapPush` | logics/vector_writer.go:226-228 | a push keeps the heap order and adds exactly the new entry |
| `SparsePruner.HeapReplaceRoot` | logics/vector_writer.go:260-261 | replacing the root and fixing the heap exchanges exactly the root for the new entry |
| `SparsePruner.Pruner.Add` | logics/vector_writer.go:250-263 | after every addition the array is a heap holding exactly the best `maxNNZ` entries, in the order that `KeptIffRanked` spells out, of everything added |
| `SparsePruner.KeptIffRanked` | logics/vector_writer.go:215-220 | with distinct indices an entry is kept if and only if fewer than `maxNNZ` others have a greater value, or the same value and a smaller index |
| `SparsePruner.TopKUnique` | logics/vector_writer.go:215-220 | there is only one multiset of best entries, so the result does not depend on the order of additions |
| `SparsePruner.PruneTwice` | logics/vector_writer.go:283-301 | pruning a pruned multiset together with more entries equals pruning everything once |
| `SparsePruner.Result` | logics/vector_writer.go:265-277 | the result lists exactly the kept entries, sorted by index, and leaves the pruner alone |
| `SparsePruner.PrunedIsStrict` | logics/vector_writer.go:265-277 | with distinct indices added, the resulting indices strictly increase |
| `SparsePruner.PrunedUnique` | logics/vector_writer.go:265-277 | the result is determined by the multiset that was added |
| `SparsePruner.AppendSparseVector` | logics/vector_writer.go:283-301 | the new vector is the pruning of the old entries and the entries of the valid, unseen ids: at most 1024, by index, and each with a greater weight than all that were left out, or the same weight and no greater index |
| `SparsePruner.AppendKeepsBest` | logics/vector_writer.go:283-301 | an entry is in the new vector if and only if it is an old one or that of an id with positive weight and a new index, and fewer than 1024 of these come before it |
| `SparsePruner.NewEntriesCount` | logics/vector_writer.go:289-298 | an id contributes exactly one entry if it is valid and its index is not in the vector yet, else none, however often it is repeated |
| `SparsePruner.AppendIgnoresOrder` | logics/vector_writer.go:283-301 | the result depends only on the set of valid ids, not on their order or repeats |
| `SparsePruner.TwoStagesEqualOne` | logics/vector_writer.go:279-301 | appending to an already pruned vector gives the same result as pruning the union once, if the index ranges are disjoint |
| `SparsePruner.OffsetSeparatesRanges` | logics/item_to_item.go:238-239 | the offset by the number of tags makes the ranges disjoint as long as both fit in 32 bits |
| `VectorWriter.SimilarityWriter.constructor` | logics/vector_writer.go:57-88 | a new writer is empty; a batch size that is not positive becomes 1024; a sparse one drops the quantization and has dimension 0 |
| `VectorWriter.SimilarityWriter.AddVector` | logics/vector_writer.go:90-111 | takes exactly the transition `Add`, whose meaning `AddTakesIffSuitable` spells out, with its status, for every pattern of failing calls |
| `VectorWriter.AddTakesIffSuitable` | logics/vector_writer.go:90-111 | a vector is accepted if and only if a sparse writer finds no half-precision values and equally many indices and values, at least one, or a dense one finds half-precision values, or values and no indices; a refused one changes nothing; the buffer is flushed exactly when it reaches the batch size |
| `VectorWriter.SimilarityWriter.CleanUp` | logics/vector_writer.go:113-125 | takes exactly the transition `Clean`, with its status |
| `VectorWriter.SimilarityWriter.EnsureCollection` | logics/vector_writer.go:127-158 | takes exactly the transition `Ensure`: no collection is touched unless its description differs |
| `VectorWriter.MatchingCollectionStays` | logics/vector_writer.go:142-156 | in every run a collection that was found with the right dimension, distance and quantization stays, with all vectors not older than the writer |
| `VectorWriter.SimilarityWriter.FlushBuffer` | logics/vector_writer.go:160-202 | takes exactly the transition `Flush` |
| `VectorWriter.CommonestLength` | logics/vector_writer.go:166-176 | the loop over counts finds the earliest most frequent length |
| `VectorWriter.Compact` | logics/vector_writer.go:180-192 | compaction in the same array leaves exactly the vectors of the dimension, in order |
| `VectorWriter.RunConserves` | logics/vector_writer.go:90-125 | in every run every accepted vector is in exactly one of delivered, dropped for its dimension, or buffered |
| `VectorWriter.RunDeliversInOrder` | logics/vector_writer.go:160-202 | in every run the delivered vectors followed by the fitting buffered ones are the accepted vectors of the chosen dimension in acceptance order, and likewise the dropped ones; without a dimension everything is buffered |
| `VectorWriter.RunDeliversEverySuitable` | logics/vector_writer.go:90-125 | after any run that ends in a `Clean` without failures, a sparse writer has delivered every suitable vector of the run once and in order, a dense one those of its dimension |
| `VectorWriter.FittingIsFilter` | logics/vector_writer.go:180-191 | compaction keeps exactly the vectors whose length is the dimension, each as often |
| `VectorWriter.FittingInOrder` | logics/vector_writer.go:180-191 | and in the order in which they were buffered |
| `VectorWriter.RunDeliversUniformly` | logics/vector_writer.go:93-106 | a dense writer delivers one single length into collections of that dimension, distance and quantization; a sparse writer only vectors with equally many, at least one, indices and values |
| `VectorWriter.LeaderIsMode` | logics/vector_writer.go:166-176 | the chosen length is most frequent, and no earlier vector has another most frequent length |
| `VectorWriter.FirstFlushChoosesMode` | logics/vector_writer.go:164-178 | the first flush of a dense writer fixes the mode of its buffer as the dimension, also if a store call fails |
| `VectorWriter.RunKeepsDimension` | logics/vector_writer.go:165-179 | a chosen dimension never changes |
| `VectorWriter.RunChoosesMode` | logics/vector_writer.go:164-178 | in every run the dimension of a dense writer, once there is one, is the earliest most frequent length of an initial part of the accepted vectors |
| `VectorWriter.BufferBound` | logics/vector_writer.go:90-111 | after an `Add` without error the buffer is shorter than a batch if and only if the vector was accepted or it was so before |
| `VectorWriter.FullBufferAfterRejectedAdd` | logics/vector_writer.go:93-110 | a run in which an `Add` without error leaves a full batch buffered |
| `VectorWriter.HealthyCleanDeliversAll` | logics/vector_writer.go:113-125 | a `Clean` in which no call fails leaves nothing buffered, everything of the dimension delivered, and nothing older than the writer in the collection |
| `ModelCollector.KeepSet` | master/tasks.go:1215-1221 | sorting and cutting computes the published id and the two newest complete models |
| `ModelCollector.FirstTwoAreNewest` | master/tasks.go:1215-1221 | the first two of a descending list are the two newest of its members |
| `ModelCollector.Stores.RemoveOutOfDate` | master/tasks.go:1170-1253 | under every pattern of failing calls exactly the planned blobs and collections disappear, in a safe order |
| `ModelCollector.Stores.RemoveOutdatedCollections` | master/tasks.go:1223-1242 | the first loop removes an outdated model's blob before its collection and skips the collection if that fails |
| `ModelCollector.Stores.SweepBlobs` | master/tasks.go:1244-1252 | the second loop removes exactly the remaining blobs older than both published models and not kept |
| `ModelCollector.WithoutErrorsKeepsExactly` | master/tasks.go:1218-1242 | without errors the remaining collections are the current one and the two newest complete ones |
| `ModelCollector.WithoutErrorsLeavesBlobs` | master/tasks.go:1207-1252 | without errors a blob remains if and only if its model is current, one of the two newest complete ones or the click model, or it has no collection and is not older than both published models |
| `ModelCollector.NoDropBesideOwnBlob` | master/tasks.go:1227-1240 | under any errors no collection is dropped whose own non-click blob is still there |
| `ModelCollector.PublishedSurvives` | master/tasks.go:1218-1252 | under any errors the published models and the blobs of all kept models stay |
| `ModelLifecycle.PublishedFactorsServable` | master/tasks.go:935-1047 | in every run with failures and restarts anywhere, the published factor model has its collection and its blob, and an installed model comes from the blob of its own id unless its reads of the target disagreed |
| `ModelLifecycle.RunKeepsInv` | master/tasks.go:1170-1253 | every step of publishing, collecting, `Sync` and `Pull` keeps the protocol's invariant |
| `ModelLifecycle.SyncDelivers` | worker/worker.go:231-313 | from every reachable state, for both models: a `Sync` and an undisturbed `Pull` can install the published model if and only if `Pull` rests, the published id is newer and the model can be served; then exactly that id is installed with the payload written under it |
| `ModelLifecycle.TrainedModelReachesWorker` | worker/worker.go:231-313 | whatever happened before, an uninterrupted training of either model, a `Sync` and a `Pull` bring the new id and its payload to the worker |
| `ModelLifecycle.PullInstalls` | worker/worker.go:275-313 | a `Pull` goes through if and only if its target is newer than the installed model and its blob, for factors also its collection, is there |
| `ModelLifecycle.InstalledFactorsGrowOverRun` | worker/worker.go:276-290 | the installed factor id never decreases over a run |
| `ModelLifecycle.InstalledIdGrows` | worker/worker.go:296-313 | in a step the installed factor id never decreases, and the click id exactly if the id to install was read after the target had dropped below the installed one |
| `ModelLifecycle.InstalledClickGrowsOverRun` | worker/worker.go:296-313 | over a run the installed click id never decreases if no restart finds another click id recorded than the one in memory |
| `ModelLifecycle.InstallMatchesIffSameId` | worker/worker.go:276-290 | an installation is of its own id's payload if and only if the id that was opened is the id that is installed, for every installation when payloads differ; the id of a factor model is always one that was written |
| `ModelPublication.PublishedClickServable` | master/tasks.go:1118-1147 | for every run, the published click model has its blob in all states if and only if every restart finds no recorded id or the blob of the recorded id |
| `ModelPublication.KeptIffNothingBetween` | master/tasks.go:1201-1221 | the collection keeps the previous model if and only if no complete id but the current one is newer |
| `ModelPublication.PreviousFactorsServable` | master/tasks.go:1199-1242 | for every run, the previous model stays complete and kept in all states if and only if every collection finds nothing complete between it and the current model |
| `ModelPublication.TidyRunsKeepPrevious` | master/tasks.go:996-1024 | that holds if no training leaves a blob without recording its id, and published ids increase |
| `ModelPublication.CollectionRemovesPrevious` | master/tasks.go:1223-1242 | otherwise a collection in which no call fails leaves the previous model incomplete, in whatever order it deletes |
| `ModelPublication.FailureFreeDropsPrevious` | master/tasks.go:1218-1242 | a collection without failures drops the previous model's collection exactly in that case |
| `ModelRuns.OrphanDisplacesPrevious` | master/tasks.go:996-1024 | a run in which an unrecorded blob makes the collector remove the previous model |
| `ModelRuns.RestartRevivesCollectedClick` | master/tasks.go:1138-1147 | a run in which a restart publishes a click model whose blob has been collected |
| `ModelRuns.RacingSyncMixesModels` | worker/worker.go:278-285 | a run in which a `Sync` inside `Pull` files one model's factors under the id of the next |
| `FeedbackMerge.LatestIsMaximum` | master/tasks.go:517-530 | the kept timestamp is one of the pair's records' and none of them is later; there is none exactly if no record refers to the pair |
| `FeedbackMerge.PullNegative` | master/tasks.go:493-543 | the negative tables hold exactly the pairs with known names and their latest timestamps |
| `FeedbackMerge.StorePositive` | master/tasks.go:581-590 | alone, the two calls leave the later of the stored and the new timestamp |
| `FeedbackMerge.PullPositive` | master/tasks.go:561-612 | the positive table holds the latest timestamps of the pairs that are not negative, and the accepted records are handed on in order |
| `FeedbackMerge.PullRead` | master/tasks.go:642-692 | the read tables hold the latest timestamps of the pairs that are neither negative nor positive |
| `FeedbackMerge.CreateRows` | master/tasks.go:740-773 | one row for each entry of the tables with its target and time, and counts equal to the numbers of rows |
| `FeedbackMerge.MergeFeedback` | master/tasks.go:465-773 | at most one row per user and item: -1 if there is negative, else 1 if positive, else -1 if read feedback, with the latest time of the deciding class; both counts are exact; the dataset gets exactly the used positives in order |
| `FeedbackMerge.MergedRows` | master/tasks.go:740-773 | a row is there if and only if it has the target of the first class with feedback for its pair, -1 for negative, 1 for positive, -1 for read, and the latest time of that class |
| `FeedbackMerge.UsedInOrder` | master/tasks.go:567-612 | the records handed on are exactly the used ones, in stream order |
| `FeedbackMerge.UsedMeans` | master/tasks.go:567-580 | a record is used if and only if both names are known and no negative record is on the same pair |
| `FeedbackMerge.MergeIgnoresOrder` | master/tasks.go:478-513 | rows and counts do not depend on the order or repeats of the records, so not on the split into item groups |
| `FeedbackMerge.WithoutNegativeTypes` | master/tasks.go:465-474 | without configured negative types the merge is that of an empty negative stream |
| `CasMaximum.StepFacts` | master/tasks.go:581-590 | a call keeps the invariant, never lowers the stored timestamp, and fails to swap only if the timestamp has become strictly larger than the loaded one |
| `CasMaximum.RunFacts` | master/tasks.go:581-590 | the stored timestamp never decreases in any interleaving |
| `CasMaximum.EndsAsMaximum` | master/tasks.go:581-590 | when all writers are done the maximum of what they wrote is stored |
| `CasMaximum.FailureHasCause` | master/tasks.go:587-589 | between a writer's load and its failing swap another writer strictly raised the timestamp |
| `CasMaximum.StepLowersMeasure` | master/tasks.go:581-590 | every call lowers a measure, so the loops terminate together |
| `CasMaximum.WritersTerminate` | master/tasks.go:581-590 | n writers make at most (2n + 3) n calls in any interleaving |
| `LabelIndexer.StepKeepsInv` | master/tasks.go:352-373 | each occurrence keeps the one-pass state equal to the two-pass definition of what was seen so far |
| `LabelIndexer.Indexer.AddFeature` | master/tasks.go:352-373 | the loop body takes exactly the modelled step |
| `LabelIndexer.IndexLabels` | master/tasks.go:344-374 | a label is indexed exactly if it occurs at least twice, and the values filed for an owner are its own in order, with the second occurrence's value in place of the very first |
| `LabelIndexer.RepeatedFacts` | master/tasks.go:353-360 | the index lists exactly the labels seen twice or more, each once |
| `LabelIndexer.EntriesPerOccurrence` | master/tasks.go:413-436 | every owner has exactly as many entries of an indexed label as it had occurrences, the very first included |
| `LabelIndexer.ValuesKeptIff` | master/tasks.go:413-436 | the entries carry the owner's own values, as a list and as a multiset, if and only if it does not own the first occurrence or the first two values are equal |
| `LabelIndexer.FirstValueIsLost` | master/tasks.go:354-366 | two owners with one label each: both entries carry the second value |
| `GroupPush.LocateItems` | master/tasks.go:483-491 | every item of every group is found at its place in its group |
| `GroupPush.PushGroup` | master/tasks.go:552-632 | the loops push one call for each run of records, with an item's details only in its first, and one for each item without records, and release every item |
| `GroupPush.PushesPerItem` | master/tasks.go:600-632 | an item is pushed once for each run of its records, and once if it has none |
| `GroupPush.OnceIffContiguous` | master/tasks.go:600-632 | every item is pushed exactly once if and only if the records of each item are contiguous |
| `GroupPush.EveryItemPushedOnce` | master/tasks.go:552-632 | with contiguous records every item is pushed exactly once, as loaded and with exactly its records in stream order |
| `GroupPush.LaterPushesAreBare` | master/tasks.go:600-632 | whatever the stream, a later push of the same item has no details any more |
| `GroupPush.OfItemInOrder` | master/tasks.go:600-618 | an item's records are exactly the stream's records of that item, in order |
| `GroupPush.GroupPushedOnce` | master/tasks.go:552-632 | if the raw stream of the group lists each item's records in a row, then so do the records used after the filter, and each item is pushed exactly once with exactly its used records |
| `GroupPush.UsedOfItem` | master/tasks.go:567-580 | the used records of an item are those of its records whose names are known and whose pair is not negative |
| `Dictionary.Index.Add` | dataset/index.go:68-73 | a new name gets the next number, a known one changes nothing |
| `Dictionary.Index.ToNumber` | dataset/index.go:76-81 | the number of a name, and NotId exactly for unknown names |
| `Dictionary.Index.ToName` | dataset/index.go:84-86 | the name whose number this is |
| `Dictionary.FreqDict.Add` | dataset/dict.go:35-47 | the id is stable or next, and only that name's count goes up |
| `Dictionary.FreqDict.AddNoCount` | dataset/dict.go:49-60 | as `Add` without counting |
| `Dictionary.FreqDict.Id` | dataset/dict.go:62-67 | the id of a name, and -1 exactly for unknown names |
| `Dictionary.FreqDict.String` | dataset/dict.go:69-74 | the inverse of `Id` |
| `Dictionary.FreqDict.Freq` | dataset/dict.go:76-81 | the frequency of an id, 0 beyond the last |
| `Dictionary.FreqDict.ToIndex` | dataset/dict.go:91-96 | the index has the same names and numbers |
| `Dictionary.FrequencyCountsAdditions` | dataset/dict.go:35-81 | after any additions a name has an id exactly if it was added, and its frequency is the number of counted additions |
| `Dictionary.IdsAreStable` | dataset/dict.go:35-60 | later additions never change an id |
| `Dataset.PutKeepsOk` | dataset/dataset.go:232-241 | recording a feedback keeps both adjacency lists transposed, the timestamps aligned and the counter equal to the total |
| `Dataset.Dataset.AddUser` | dataset/dataset.go:199-212 | adds an empty list where needed and keeps lists and frequencies consistent |
| `Dataset.Dataset.AddItem` | dataset/dataset.go:214-230 | the same for items |
| `Dataset.Dataset.AddFeedback` | dataset/dataset.go:232-241 | records exactly the pair and its time on both sides, and every frequency stays the number of feedback |
| `Dataset.Dataset.SplitCF` | dataset/dataset.go:259-319 | for every random choice of distinct test users and of positions, both parts are consistent and every user's events are divided as chosen |
| `Dataset.SplitConserves` | dataset/dataset.go:259-319 | per user the events of both parts together are the original multiset; a user with feedback gives exactly the event picked to test, and keeps the others in order, if all users are tested or it is in the sample; all others keep everything; the counters add up |
| `Dataset.SplitTransposed` | dataset/dataset.go:259-319 | the item lists of both parts together mention a user as often as the user's list mentions the item |
| `Dataset.Dataset.SplitLatest` | dataset/dataset.go:322-352 | for every sort result that is consistent with the comparison both parts are consistent and hold the most recent events as specified |
| `Dataset.LatestSplitKeepsMostRecent` | dataset/dataset.go:322-352 | test gets an event of the latest time, train the next most recent, at most `shots`; no discarded event is newer than a kept one |
| `Binary.RoundTrip` | common/encoding/encoding.go:69-75 | a number that fits is read back from its little-endian bytes |
| `Binary.LowByteFirst` | common/encoding/encoding.go:69-75 | byte i of a number is its digit for 256 to the power i, of the two's complement if it is negative |
| `UnifiedIndex.RangeStarts` | dataset/unified_index.go:202-249 | the five ranges follow one another without gaps from 0 to `Len` |
| `UnifiedIndex.EncodersFillRanges` | dataset/unified_index.go:209-249 | an encoder yields a number in its own range for a known name and NotId exactly for unknown ones |
| `UnifiedIndex.EncodersInjective` | dataset/unified_index.go:209-249 | no two names, of the same or of different encoders, get the same number |
| `UnifiedIndex.EncodersCover` | dataset/unified_index.go:202-249 | every number below `Len` is the encoding of some name |
| `UnifiedIndex.Marshal` | dataset/index.go:94-108 | writes the count and the names with their lengths |
| `UnifiedIndex.Unmarshal` | dataset/index.go:111-129 | reads exactly what the reading function says, errors included |
| `UnifiedIndex.IndexRoundTrip` | dataset/index.go:94-129 | reading back a saved index followed by any bytes gives the same names and leaves what follows, except exactly where an empty last name meets the end of the stream |
| `UnifiedIndex.UnifiedRoundTrip` | dataset/unified_index.go:272-294 | the same for the five indices one after the other |
| `UnifiedIndex.AnyRoundTrip` | dataset/unified_index.go:56-104 | the same for the tagged outer format of all three kinds of index |
| `UnifiedIndex.SavedLayout` | dataset/unified_index.go:49-80 | the first byte is 0, 1 or 2 for a map index, a direct index or none; a map index goes on with the number and the names of the users |
| `DumpRestore.TokensOfWritten` | master/rest.go:1795-1822 | a written sequence of records and flags, followed by any bytes, is read back token by token |
| `DumpRestore.TokensOfCut` | master/rest.go:1809-1822 | from a strict prefix only a strict prefix of the tokens can be read |
| `DumpRestore.BatchesPartition` | master/rest.go:1950-1979 | batches are non-empty, at most `batchSize` long, and together the records in order |
| `DumpRestore.DumpLayout` | master/rest.go:1836-1931 | a dump is the flag -1, the users, -2, the items, -3, the feedback and 0, every record behind its size |
| `DumpRestore.FlagBytes` | master/rest.go:1782-1787 | the eight bytes of each of the four flags |
| `DumpRestore.RestoreOfDump` | master/rest.go:1836-1931 | restoring a dump followed by any bytes inserts exactly the dumped records in order, in batches, with matching counts |
| `DumpRestore.RestoreOfTruncatedDump` | master/rest.go:1941-2063 | on any strict prefix the restore returns an error having inserted an initial part of the records, also when insertions fail |
| `DumpRestore.RestoreStopsAtFailure` | master/rest.go:1968-1979 | if the data store accepts only n insertions, fewer than the dump has batches, the restore ends with an error after inserting exactly the first n batches |
| `DumpRestore.UnknownFlagIsRefused` | master/rest.go:2059-2062 | a stream that starts with anything but the four flags is refused before anything is inserted |
| `DumpRestore.EmptyRecordEndsRestore` | master/rest.go:1814-1816 | an empty record would be taken for the end of the stream |
| `DumpRestore.ShiftedDecodes` | master/rest.go:2025-2028 | with a delta all feedback is restored with shifted timestamps |
| `DumpRestore.RestoreSection` | master/rest.go:1947-1979 | an inner loop inserts exactly the batches of its section and stops where the section does |
| `DumpRestore.Restore` | master/rest.go:1941-2063 | the nested loops insert and count exactly what the specification says, for every input and every failing insertion |
| `Recommender.ParseFullName` | logics/recommend.go:158-178 | full names of configured recommenders are resolved to their own kind and name, so no two kinds collide |
| `Recommender.ParseSpelledOut` | logics/recommend.go:36-43 | the prefixes and the two plain names that select a recommender |
| `Recommender.Recommender.constructor` | logics/recommend.go:61-93 | an item is excluded if and only if some feedback on it is negative, or any is there and replacement is off or the request offline; cold start exactly without positive feedback |
| `Recommender.AskAvoids` | logics/recommend.go:180-383 | no source returns an excluded item, and none repeats an item unless its store does |
| `Recommender.FreshInOrder` | logics/recommend.go:190-198 | the filter keeps exactly what is not excluded, in order |
| `Recommender.AskFailsIff` | logics/recommend.go:180-283 | a source fails if and only if it is not configured or one of the queries it makes fails |
| `Recommender.UserToUserFailsIff` | logics/recommend.go:285-334 | and user-to-user if and only if its section is missing or the query for similar users, for the items of one of them or for the details of the selected items fails |
| `Recommender.ContextTakesFirst` | logics/recommend.go:250-259 | the context is the items of the first positive feedback in order: all of it offline, online at most `contextSize`, but one if there is any |
| `Recommender.Recommender.RecommendItemToItem` | logics/recommend.go:244-283 | the loops compute the specified table and selection, and fail exactly where a query does |
| `Recommender.ItemToItemRanksBySum` | logics/recommend.go:258-281 | the result ranks the neighbours of the user's positive items by summed score, at most the cache size, and none left out is better; categories are those of the last neighbour of the name |
| `Recommender.Recommender.RecommendUserToUser` | logics/recommend.go:285-348 | the loops compute the specified table, selection and filter |
| `Recommender.UserToUserRanksBySum` | logics/recommend.go:297-345 | the result is a ranking of the items of similar users by summed similarity, restricted to the shown items with all requested categories; it is in order, at most the cache size, and no shown item that is left out is better |
| `Recommender.Recommender.RecommendExternal` | logics/recommend.go:350-383 | nothing with categories, else the script's items that are not excluded |
| `Recommender.ExternalIgnoresCategories` | logics/recommend.go:360-363 | with categories the answer is empty and does not fail, whatever the script would do |
| `Recommender.Recommender.RecommendLatest` | logics/recommend.go:180-200 | the latest items that are not excluded |
| `Recommender.Recommender.RecommendSequential` | logics/recommend.go:135-156 | results, digest and exclude set are those of the specified chain, early exit and errors included |
| `Recommender.Recommender.Recommend` | logics/recommend.go:107-131 | result and exclude set are those of the specified two stages, which the following rows describe |
| `Recommender.RankedRequestMissesNothing` | logics/recommend.go:107-131 | with a ranker a successful request fills its limit or has everything cached, and everything a listing source of the fallback has, in the result or excluded before |
| `Recommender.UnrankedRequestMissesNothing` | logics/recommend.go:121-131 | without a ranker it fills its limit, reaches the cache size, or has everything of the listing sources of the ranker and of the fallback in the result or excluded before |
| `Recommender.FallbackFillsExceptCutOff` | logics/recommend.go:126-131 | if places are left, everything a listing source of the fallback has is in the result or was excluded before, if and only if the cache size has cut none of it off in the first stage; with a ranker nothing is cut off |
| `Recommender.CutOffItemIsLost` | logics/recommend.go:146-153 | a request in which an item that was cut off is not returned although places are left and the fallback has it |
| `Recommender.EarlierSourcesComeFirst` | logics/recommend.go:135-156 | the results of the first names of a chain are the first results of the whole chain |
| `Recommender.SmallerLimitIsPrefix` | logics/recommend.go:107-156 | a smaller positive limit gives the first results of a larger or unlimited one, and cannot fail where that succeeds |
| `Recommender.NeverRecommendsNegative` | logics/recommend.go:67-80 | no result has negative feedback of the user, whatever the caches hold; with replacement off or offline none has any feedback |
| `Recommender.RecommendAvoids` | logics/recommend.go:107-156 | no excluded item is returned, and no item twice if no source repeats one |
| `Recommender.CachedComeFirst` | logics/recommend.go:108-131 | with a ranker the result starts with the cached recommendations: in cache order exactly those that are not excluded and occur for the first time, up to the limit |
| `Recommender.ListingSourcesFilter` | logics/recommend.go:180-383 | the latest, collaborative, non-personalized and external sources return exactly their items that are not excluded, external ones nothing with categories |
| `Recommender.ChainLosesNothing` | logics/recommend.go:135-156 | a chain that ends without reaching its limit has every item of a listing source in the result or excluded before, and excludes nothing else |
| `Recommender.CallsAreDisjoint` | logics/recommend.go:107-156 | a second call on the same recommender repeats nothing of the first |
| `Digest.CombineIgnoresOrder` | common/util/util.go:92-99 | the combined digest does not depend on the order of its parts |
| `Digest.CombineKeepsLength` | common/util/util.go:92-99 | without hash collisions equal combinations come from equally many bytes |
| `Digest.CombineDecides` | common/util/util.go:92-99 | without hash collisions two combinations of hashes are equal exactly if the same hashes are present equally often |
| `Freshness.ListRecommenders` | config/config.go:218-235 | lists the full names of all sections in order, then collaborative and latest |
| `Freshness.Hash` | config/config.go:255-288 | combines the hashes of exactly the ranker's recommenders, or of all if none is listed |
| `Freshness.SelectedInOrder` | config/config.go:255-288 | exactly the hashes of the selected recommenders enter, in the order of the sections |
| `Freshness.EmptyRankerHashesAll` | config/config.go:256-259 | a ranker that lists nothing stands for all recommenders |
| `Freshness.SequentialDigests` | logics/recommend.go:135-156 | an unlimited chain collects one digest for each name, independent of the exclude set |
| `Freshness.FullNamesDistinct` | config/config.go:218-235 | with unique names in each section all full names differ |
| `Freshness.DigestAgrees` | worker/pipeline.go:212-227 | the digest of the unlimited chain equals the configuration hash if names are unique, all listed ones are available, their stored digests are current and none is listed twice, in any order |
| `Freshness.DigestAgreesIffNoRepeats` | config/config.go:255-288 | without hash collisions they agree if and only if none is listed twice |
| `Freshness.DigestAgreesIffNoneMissing` | worker/pipeline.go:212-227 | if the stored digests of the listed recommenders are current or missing, they agree if and only if none is missing |
| `Freshness.MissingCollaborativeDigest` | worker/pipeline.go:197-207 | for a user without a stored collaborative digest they agree if and only if the collaborative recommender is not listed |
| `Freshness.DigestAgreesExactly` | config/config.go:255-288 | for every list of names and every content of the cache, they agree if and only if the present digests are the selected hashes, each as often |
| `Freshness.Validate` | config/config.go:895-1071 | accepts exactly unique non-personalized and item-to-item names, a non-empty ranker list (one name without ranker), and names that exist and are not the switched-off collaborative one |
| `Freshness.ValidNamesMeaning` | config/config.go:895-1071 | spelled out: no non-personalized or item-to-item name twice, one to any number of ranker entries (one without ranker), and only "latest", "collaborative" unless it is switched off, and configured names behind their prefix |
| `Freshness.CheckRecommendCacheOutOfDate` | worker/pipeline.go:357-410 | stale if and only if a query fails, nothing is cached, the stored digest is empty or not the configuration hash, the update is expired, not later than the last activity, or beyond the ranker's period |
| `Freshness.RecommendCache.CacheRecommendation` | worker/pipeline.go:297-315 | digest and time change only if all store calls succeed; then the cached scores are the new ones and those not older |
| `Freshness.FreshAfterRecommend` | worker/pipeline.go:309-312 | a non-empty result just written is fresh if and only if it is not expired, not beyond the ranker's period, and later than the last activity |
| `Freshness.FreshIffDigestsAgree` | worker/pipeline.go:373-410 | without hash collisions, for every list of names and every content of the digests, a result just written is fresh if and only if the present digests are the selected hashes, each as often, and the times allow it |
| `Freshness.OtherConfigurationIsStale` | worker/pipeline.go:382-384 | without hash collisions what was cached under one configuration is stale under another whose selected hashes differ |
| `Replacement.ItemCache.GetSlice` | worker/pipeline.go:698-723 | whatever the cache holds, the answer is the visible items of the database in the order of the request, and a failed query has no effect |
| `Replacement.LookupInOrder` | worker/pipeline.go:714-722 | the answer lists exactly the positions of the request whose item exists and is not hidden, in order |
| `Replacement.AddReplacementCandidates` | worker/pipeline.go:610-652 | appends exactly the visible items with positive or read feedback that are missing, each once; the two returned sets divide them |
| `Replacement.ReplacedItems` | worker/pipeline.go:616-650 | an item comes back if and only if it exists, is not hidden, and some feedback on it is positive or read; it counts as negative if and only if some is read and none positive |
| `Replacement.NegativeItemsCanReturn` | worker/pipeline.go:618-627 | an item that was read and has negative feedback is put back |
| `Replacement.ApplyReplacementDecay` | worker/pipeline.go:654-681 | every replaced item is decayed exactly once, by the positive factor if it is among the positive items, else by the read factor; nothing else changes, and the result is sorted again if there is one |

## Left out

- HTTP handlers, login, the dashboard, bulk import and export, generated protocol code and metrics: input and output only.
- Model fitting, hyper-parameter search, rerankers and inverse document frequencies: floating-point behaviour with no exact property here.
- Floating point: values are reals or integers, so rounding, overflow of sums and NaN are not modelled; the square root is an arbitrary function.
- Databases, the blob and vector stores, neighbour queries, scripts, the random generator, sorting and protobuf are parameters with short specifications.
- Mutexes and data races on unlocked fields: every method runs alone; only the compare-and-swap loop and the model protocol are interleaved.
- User and item labels inside the dataset, categories and negative sampling in `dataset/dataset.go`, and the modal embedding dimension in `master/tasks.go`: easier members of the kinds shown.
- The user partitioning among workers, `checkUserActiveTime`, and the update of a user's collaborative cache, apart from its digest: easier members.
- The direct unified index apart from its serialised form.
- `ModelCollector.Stores.RemoveOutOfDate`: starts after both listings; a failing listing returns before anything is touched, and names that do not parse as ids are skipped, so they are not in the modelled sets.
- `VectorWriter.HealthyCleanDeliversAll`: assumes that none of the store calls fails.
- `Freshness.Validate`: covers the names of the recommenders; the checks of the decision ranker's address and model and of single fields against their tags are not modelled.
- `Freshness.DigestAgreesIffNoRepeats`: assumes a hash without collisions, which MD5 only approximates.
- `GroupPush.PushGroup`: assumes that the records belong to the group; a record of another group would be filed under another item's place. The reuse of the collected slice after a push is not visible on values, so recommenders are taken not to keep it.
- `LabelIndexer.IndexLabels`: owners are distinct, as the primary keys of the stores ensure; reading an owner twice would reset its list.
- `Dataset.Dataset.AddFeedback`: requires lists for the ids it uses, where the code would panic.
- `Dictionary.Index.ToName`: requires a valid index, where the code would panic.
- `Dictionary.FreqDict.ToIndex`: copies on values, whereas the code shares the map and list with the dictionary.
- `UnifiedIndex.Unmarshal`: a negative count or length is an error here, where the code panics while allocating; partial reads are not modelled.
- `DumpRestore.RestoreOfDump`: decoders are assumed to invert their encoders and no encoding is empty, which protobuf ensures for records with an id.
- `Recommender.Recommender.RecommendItemToItem`: the user's feedback is taken in the order the source sorts it into; the sort itself is not modelled.
- `Recommender.Recommender.RecommendSequential`: sources are functions of the exclude set for the duration of a request, so ties in the selection are always broken alike.
- `Replacement.ItemCache.GetSlice`: the database does not change during the life of the cache.
- 32-bit counters: numbers of names stay below 2^31, and feedback counters do not wrap.
