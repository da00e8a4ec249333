# LogSieve: the deduplication pipeline, verified

This project models the components of LogSieve that hold state, and proves what they promise over
whole runs. Every component whose source updates fields in place has two parts: a specification on
values (the modules ending in `Model`, with the theorems about it), and classes and methods with the
source's own fields, loops and branches, each proved to compute what the specification says.

- **Drain3 clustering** (`Tokenizer`, `DrainModel`, `DrainInvariants`, `DrainStability`, `DrainRuns`,
  `DrainEviction`, `DrainSearch`, class `Drain3.Drain3`): a mutable prefix tree over shared clusters, with
  generalisation to `<*>`, re-indexing under the all-wildcard path, and eviction of the oldest cluster of a leaf.
- **Dedup engine over time** (`Fingerprint`, `ContextWindow`, `EngineModel`, `EngineRuns`, `EngineCache`,
  `Engine`), and the processor in front of it (`ProcessorModel`, `Processor`).
- **Blocking queue** (`QueueModel`, `Queue`): threads that park, are signalled and resume, as a transition system
  whose steps are the critical sections.
- **Rate limiter**: whole requests (`RateLimitModel`, `RateLimitTheorems`, `RateLimitRefills`), and any number of
  threads whose requests are two critical sections, with cleanups anywhere in between (`RateLimitThreads`,
  `RateLimitRaces`, class `RateLimiter.RateLimiter`).
- **Router** (`RouterModel`, `Router`): retries, circuit breaker, choice of outputs.
- **Batching buffer** (`BufferModel`, `Buffer`).
- **Learn command** (`Rules`, `Selection`, `Learn`) and **Loki streams** (`Quoting`, `StreamKeys`, `Loki`).

Clocks, the order of map iteration, which thread a signal wakes, how a Send ends and what a profile decides are
parameters or left open. Times are integers (nanoseconds); ratios, similarities and refills are exact.

Where the code does not meet a property in full, the exact condition is proved, and a failing input is given:

- The repeat of a message is stable iff the similarity threshold is at most 1 (`RepeatStability`;
  `NothingFoundAboveOne` for the others). The configuration loader rejects other thresholds; the clustering itself
  accepts any positive one.
- A request of the limiter looks its bucket up under one lock and draws from it under another, and a cleanup in
  between can take the bucket out of the map. On all interleavings of these sections:
  - what is drawn from buckets in the map keeps to the rate iff an idle bucket earns a full burst before it is evicted
    (`MapWithinRateIff`);
  - all admissions together exceed that by at most one for every thread that was holding an evicted bucket or is
    caught by a cleanup (`CaughtThreadsExceedRate`);
  - all admissions keep to the rate iff there are no bursts (`AllWithinRateIff`), and eviction is unnoticed iff there
    are none (`EvictionUnnoticedIff`). The history of `CaughtInside` and `Instant`, with a single caught thread, fails
    both, for every other limiter with harmless eviction (`OneCaughtThreadIsTooMany`, `CaughtThreadNotices`).
- On histories of whole requests, with no cleanup between a lookup and its draw, the rate bound holds iff an idle
  bucket earns a full burst before it is evicted (`RateBoundIff`). Eviction is then unobservable under that condition
  when every request reads the clock once (`EvictionUnobservableIff`). The code reads it twice: eviction is
  unobservable iff there are no bursts, or that condition holds and the rate earns a token every nanosecond
  (`EvictionNeverObservedIff`); every slower limiter has the history of `TwoReadingsObserveEviction`.
- A generalised cluster stays listed on the all-wildcard leaf in every run iff leaves have no limit, or the tree has
  no level below the message length, or the threshold is at least 1 so that no template is ever generalised
  (`GeneralizedStaysAttachedIff`). Otherwise enough messages of literal wildcards displace it: `CrowdEvicts`.
- A producer of the buffer tests for closed and sends in two steps. After Close its send panics; this happens to nobody,
  whatever follows, iff no thread is between the two when the channel is closed (`NobodyPanicsIff`), and otherwise to
  those threads only (`CaughtThreadsPanic`).
- Nobody is stranded in the queue iff every `PopBatch` asks for at least one item (`NobodyStrandedIff`). A batch of
  size zero takes a signal and no item.
- The pauses of a call stay within (attempts - 1) times the maximum iff the initial pause is at most the maximum
  (or there is one attempt): the first pause is not cut (`TotalPauseBoundIff`).
- A line is matched by the generated rule of its cluster, whatever else the file holds, iff it fits its own
  tokens (`AlwaysMatchedIff`). Lines without delimiters and white space at either end do; the line `a_b` does not,
  for any tokenizer that splits at the underscore (`InnerDelimiterIsMissed`).
- Stream keys tell label sets apart if all names lack an equals sign followed by a quote, or all lack a comma
  (`StreamKeyIsInjective`). For names over an alphabet of characters they do iff the alphabet lacks the equals sign,
  the quote or the comma (`InjectiveOverIff`), and the same decides whether grouping is always a partition
  (`PartitionOverIff`). `KeysCanCollide` gives two label sets with one key for any two values.

The engine's context already ends with a copy of the triggering entry, and the processor appends the entry again;
`ErrorsBringContext` states the resulting list as it is. The comment on `addWildcardPathForCluster` says that the
path follows the wildcards of the template; the code follows wildcards only, at every level, and the model does so too.

## Model

| member | source | states |
|---|---|---|
| Tokenizer.MaskingKeepsWords | pkg/dedup/drain3.go:272-288 | A masked token is a word, and it is the token itself or has the form of a hole |
| Tokenizer.MaskingIsByFirstRule | pkg/dedup/drain3.go:272-288 | The first rule that matches gives the mask; without one, digits become a number mask when that is configured, and any other token stays as it is |
| Tokenizer.HolesAreBracketed | pkg/dedup/drain3.go:497 | Holes are exactly the tokens in angle brackets |
| Tokenizer.TokensAreMaskedWords | pkg/dedup/drain3.go:255-270 | The tokens are the words of the message without its delimiters, in order, each masked by itself |
| Tokenizer.TokensAreWords | pkg/dedup/drain3.go:255-270 | Tokens are never empty and contain no white space |
| Text.FieldsOfWord | pkg/dedup/drain3.go:262 | A word that ends at a space or at the end of the text is the first of its words |
| Tokenizer.DelimitersBecomeSpaces | pkg/dedup/drain3.go:255-260 | Replacing the delimiters one after the other turns exactly the delimiters into spaces, in whatever order they come |
| Tokenizer.NoDelimiters | pkg/dedup/drain3.go:257-260 | A message without delimiters reaches the word split unchanged |
| DrainModel.SimilarityRange | pkg/dedup/drain3.go:338-351 | Similarity lies between 0 and 1, and is 1 exactly when the template covers the message |
| DrainSearch.SimilarityIsRatio | pkg/dedup/drain3.go:338-351 | Similarity is the number of agreeing positions, counted as a set, over the number of positions, and 0 for another length |
| DrainModel.BestIsFirstMaximum | pkg/dedup/drain3.go:323-335 | The scan of a leaf finds the first cluster of greatest similarity that reaches the threshold, and nothing exactly if no cluster has positive similarity that reaches it |
| DrainInvariants.LggStep | pkg/dedup/drain3.go:413-431 | Generalising the template by one more message gives the least generalisation of the longer list |
| DrainInvariants.LggCovers | pkg/dedup/drain3.go:413-431 | The least generalisation covers every message of the list |
| DrainInvariants.LggOrderIndependent | pkg/dedup/drain3.go:413-431 | It depends on the set of messages, not on their order or number |
| DrainModel.EnsureWayNodes | pkg/dedup/drain3.go:371-399 | Navigation to a leaf adds exactly the missing nodes of the message's own tokens, and they are empty |
| DrainModel.EnsureWildNodes | pkg/dedup/drain3.go:446-475 | Re-indexing adds exactly the missing wildcard nodes of the path and the literal beside each, and they are empty |
| DrainInvariants.CreateEffect | pkg/dedup/drain3.go:368-411 | Creation adds nodes on the message's path only, and changes one list: the new id last, the oldest evicted when full |
| DrainInvariants.EvictKeeps | pkg/dedup/drain3.go:403-410 | A leaf keeps the newest clusters in order, the new one last; exactly one goes, and only when the leaf was full |
| DrainInvariants.ReindexEffect | pkg/dedup/drain3.go:436-488 | Re-indexing keeps all nodes and lists but that of the all-wildcard leaf, adds the specific siblings, and lists the cluster once |
| DrainInvariants.SearchFinds | pkg/dedup/drain3.go:291-336 | A found cluster is listed at the leaf reached, has the message's length, and is similar enough |
| DrainSearch.SearchTakesTheWay | pkg/dedup/drain3.go:296-321 | The traversal ends at a leaf iff there is a way of nodes to it that takes the literal child where there is one and the wildcard child where there is none; it fails iff such a way ends early at a node with neither, or the length has no node |
| DrainSearch.SearchDecides | pkg/dedup/drain3.go:291-336 | The search finds the first of the clusters listed at that leaf that agree in most positions among those similar enough, and nothing iff there is none |
| DrainSearch.AddDecides | pkg/dedup/drain3.go:133-189 | A message creates a cluster iff no cluster listed where its way ends is similar enough; otherwise it joins the first best of those |
| DrainSearch.ResultDescribesCluster | pkg/dedup/drain3.go:163-188 | The result has the size, the count and the template text as they are afterwards; the size is one more than before, or one for a new cluster |
| DrainSearch.GeneralizedIsFound | pkg/dedup/drain3.go:313-316 | A message with no literal child beside the wildcards on its way never creates a cluster when one listed at their end is similar enough |
| DrainSearch.GeneralizedIsFoundInRuns | pkg/dedup/drain3.go:313-316 | So it is in every run for each cluster whose template is no longer its first message, where such clusters stay listed |
| DrainSearch.ListedAtLeafLevel | pkg/dedup/drain3.go:371-399 | In every run clusters are listed only where levels or tokens are used up, below the node of their length |
| DrainInvariants.StepKeepsInv | pkg/dedup/drain3.go:137-188 | Every way a message can change the state keeps ids, templates, listings and attachment consistent with the history |
| DrainInvariants.AddKeepsInv | pkg/dedup/drain3.go:137-188 | Adding any message in a consistent state gives a consistent state |
| DrainStability.GeneralizeKeepsCover | pkg/dedup/drain3.go:413-425 | Generalising a template loses none of the messages it covered |
| DrainStability.DescendExact | pkg/dedup/drain3.go:309-321 | The search follows the path of exact children as long as it exists |
| DrainStability.ReindexDoesNotDivert | pkg/dedup/drain3.go:436-488 | The nodes that re-indexing adds do not lead the search for the same message to another leaf |
| DrainStability.StableAfterCreate | pkg/dedup/drain3.go:353-411 | After creation the search for the message finds the new cluster, in spite of eviction |
| DrainStability.StableAfterMerge | pkg/dedup/drain3.go:413-488 | After a merge the search for the message finds the same cluster, in spite of re-indexing |
| DrainRuns.RunKeepsInv | pkg/dedup/drain3.go:137-188 | Every state of every run since a reset is consistent with the messages so far |
| DrainRuns.HistoryIsAssigned | pkg/dedup/drain3.go:137-188 | The history of a cluster is the list of messages whose results name it |
| DrainRuns.TemplatesAreLeastGeneralizations | pkg/dedup/drain3.go:413-431 | Position i of a template is the common token of all messages ever assigned, and the wildcard if there is none; sizes count them |
| DrainRuns.TemplatesForgetOrder | pkg/dedup/drain3.go:413-431 | Two clusters of any two runs with the same set of assigned messages have the same template |
| DrainRuns.TreeShape | pkg/dedup/drain3.go:368-411 | A listed cluster is stored, and listed only on the path of its first message or on the all-wildcard path of its length; no list repeats an id; leaves that are not all-wildcard respect the maximum |
| DrainRuns.GeneralizedStaysAttached | pkg/dedup/drain3.go:436-488 | After any run, a cluster whose template is no longer its first message is listed on the all-wildcard leaf, when leaves have no limit or every message has a token other than the wildcard on its way down |
| DrainEviction.CrowdEvicts | pkg/dedup/drain3.go:401-408 | For every limit, at least one level below the length and every threshold below 1, a run that evicts a generalised cluster from that leaf: enough messages of literal wildcards in front of tokens of their own |
| DrainEviction.GeneralizedStaysAttachedIff | pkg/dedup/drain3.go:401-488 | For every positive threshold, generalised clusters stay on that leaf in all runs iff leaves have no limit, MaxNodeDepth is at most one, or the threshold is at least one |
| DrainRuns.TreeIsShallow | pkg/dedup/drain3.go:368-488 | In every run the tree is at most MaxNodeDepth levels deep, and one level for smaller settings |
| DrainRuns.NothingFoundAboveOne | pkg/dedup/drain3.go:327-333 | With a threshold above 1 no search succeeds |
| DrainRuns.RepeatStability | pkg/dedup/drain3.go:137-188 | In every reachable state, for every message: after adding it, a search finds its cluster with similarity 1 and adding it again changes only the size; iff the threshold is at most 1 |
| DrainRuns.WildcardsGrow | pkg/dedup/drain3.go:418-425 | Generalising never removes a wildcard, and adds one whenever the template changes |
| DrainRuns.Conservation | pkg/dedup/drain3.go:137-188 | Ids are exactly 1 to the last one given, which counts creations; sizes sum to the tokenised messages; template changes are at most the sum of template lengths |
| DrainRuns.ClusterCountIsCreations | pkg/dedup/drain3.go:181-187 | The reported cluster count is the number of creations so far |
| DrainRuns.ChangeTypeIsExact | pkg/dedup/drain3.go:151-187 | Created is reported iff the search fails; a template change iff the old template did not cover the message, although the code compares joined texts |
| Drain3.HangChild | pkg/dedup/drain3.go:375-381 | A new child node extends the tree of nodes by exactly its path |
| Drain3.ReplaceDifferences | pkg/dedup/drain3.go:418-425 | The loop over the template's slots generalises it in place and reports whether it changed |
| Drain3.CalculateSimilarity | pkg/dedup/drain3.go:338-351 | The counting loop computes the similarity of the specification |
| Drain3.Drain3.constructor | pkg/dedup/drain3.go:95-134 | A new instance is the initial state |
| Drain3.Drain3.TreeSearch | pkg/dedup/drain3.go:291-336 | The traversal and the scan return the cluster that Search finds, or none; DrainSearch.SearchDecides says which that is |
| Drain3.Drain3.FindLeaf | pkg/dedup/drain3.go:296-321 | The traversal reaches the leaf of SearchLeaf or fails with it; DrainSearch.SearchTakesTheWay says which leaf that is |
| Drain3.Drain3.BestInLeaf | pkg/dedup/drain3.go:323-335 | The scan returns the best cluster of the leaf's list |
| Drain3.Drain3.CreateCluster | pkg/dedup/drain3.go:353-366 | The next id, the tokens as template, size 1 |
| Drain3.Drain3.AddClusterToTree | pkg/dedup/drain3.go:368-411 | Stores the cluster, creates the missing nodes of its path, appends and evicts: the abstract creation |
| Drain3.Drain3.AddWildcardPathForCluster | pkg/dedup/drain3.go:436-488 | Creates specific and wildcard children at every level and lists the cluster once: the abstract re-indexing |
| Drain3.Drain3.UpdateTemplate | pkg/dedup/drain3.go:413-431 | Generalises the shared cluster, and re-indexes it exactly if the template changed |
| Drain3.Drain3.AddLogMessage | pkg/dedup/drain3.go:137-188 | The whole new state and the whole result are those of the specification |
| Drain3.Drain3.Match | pkg/dedup/drain3.go:191-219 | Inference reports the cluster, its template, similarity and parameters, and changes nothing |
| Drain3.ParametersAreAtHoles | pkg/dedup/drain3.go:490-503 | The parameters are the tokens of the message at the holes of the template, in order; none for another length |
| Text.ScanIff | pkg/dedup/drain3.go:573 | Exactly the texts are read that start, after white space in one line, with an optional sign and digits; the value is that of all the digits there |
| Text.ScanItoa | pkg/dedup/engine.go:85 | A printed id is read back |
| Drain3.Drain3.GetTemplate | pkg/dedup/drain3.go:567-590 | The cluster whose number the text scans as, or nothing when it does not scan or there is no such cluster |
| Drain3.Drain3.Stats | pkg/dedup/drain3.go:649-682 | The cluster count, the sum of all sizes in whatever order the map is read, and the depth of the deepest node |
| Drain3.Drain3.CalculateTreeDepth | pkg/dedup/drain3.go:665-682 | The recursion finds the greatest depth in the subtree of a node |
| Drain3.Drain3.GetClusters | pkg/dedup/drain3.go:514-525 | Every stored cluster once |
| Drain3.Drain3.GetTopClusters | pkg/dedup/drain3.go:535-554 | Distinct clusters, largest first, none outside larger than one inside, as many as the limit allows |
| Drain3.Drain3.Reset | pkg/dedup/drain3.go:556-564 | The initial state again |
| Fingerprint.FingerprintCache.Add | pkg/dedup/fingerprint.go:40-45 | The entry expires ttl after this reading of the clock; nothing else changes |
| Fingerprint.FingerprintCache.Exists | pkg/dedup/fingerprint.go:47-63 | True iff present and not expired; an expired entry is deleted |
| Fingerprint.FingerprintCache.Cleanup | pkg/dedup/fingerprint.go:91-103 | Exactly the expired entries are deleted |
| Fingerprint.CacheInvariant | pkg/dedup/fingerprint.go:40-103 | What the cache holds is the last addition; what it no longer holds has expired |
| Fingerprint.CacheAnswersRecent | pkg/dedup/fingerprint.go:40-103 | In any interleaving with deletions, a lookup answers whether the fingerprint was added at most ttl ago |
| ContextWindow.LastOfLast | pkg/dedup/context.go:19-37 | The last m of a window of n entries are the last m of the whole history |
| ContextWindow.LastOfIsTheEnd | pkg/dedup/context.go:39-63 | The entries before the trigger are the end of the history |
| ContextWindow.ContextWindow.Add | pkg/dedup/context.go:28-37 | The capped buffer stays the end of the unbounded history |
| ContextWindow.ContextWindow.GetContext | pkg/dedup/context.go:39-74 | The last contextLines entries of the whole history, in order, then the trigger |
| Engine.Engine.ShouldSkipBasedOnTemplate | pkg/dedup/engine.go:124-131 | True iff the text of the id stands for a cluster with more than one message |
| Engine.Engine.Process | pkg/dedup/engine.go:45-122 | The new state of clustering, cache and window and the result are those of one step of the specification; EngineCache and EngineRuns say what steps come to |
| Engine.Engine.Reset | pkg/dedup/engine.go:174-182 | The state of a new engine |
| EngineRuns.AddCovers | pkg/dedup/engine.go:91-107 | Clustering one more message keeps what every template covers, and covers the message |
| EngineRuns.NothingSuppressedWithoutRepresentative | pkg/dedup/engine.go:69-120 | Every suppressed entry has an earlier emitted one with the same text, or one that created a cluster whose current template covers it |
| EngineRuns.EmittedExactly | pkg/dedup/engine.go:91-145 | Past the cache an entry is a duplicate iff it joined a cluster, and is emitted iff it is no duplicate or its level is ERROR, FATAL or PANIC; its result names the cluster |
| EngineCache.HitIffPassedRecently | pkg/dedup/engine.go:69-107 | In every timed run an entry is stopped by the cache iff an earlier one with the same text got past it and its time to live has not run out; hits do not extend it |
| EngineCache.CleanupKeepsLive | pkg/dedup/fingerprint.go:91-103 | A cleanup removes exactly the expired fingerprints and does nothing else |
| EngineCache.DrainSeesPassed | pkg/dedup/engine.go:69-95 | The clustering of an engine run is that of a run over the entries past the cache alone, with the same answers |
| EngineCache.PassedInOrder | pkg/dedup/engine.go:117-118 | The entries past the cache, each once, in the order of the events |
| EngineRuns.HistoryIsPassed | pkg/dedup/engine.go:117-118 | The window's history is the list of entries that passed the cache |
| EngineRuns.ContextIsRecentHistory | pkg/dedup/engine.go:109-118 | An error that passes the cache brings exactly the last entries that did, then itself |
| EngineRuns.PassagesAreApart | pkg/dedup/engine.go:69-107 | Two passages of the same text past the cache are more than ttl apart, since hits do not extend the expiry |
| EngineRuns.PassagesTakeTime | pkg/dedup/engine.go:69-107 | k passages of the same text take more than (k - 1) times ttl |
| ProcessorModel.NothingIsLost | pkg/processor/processor.go:214-246 | An entry that its profile lets through is put out last in its output, or an earlier output stands for it |
| ProcessorModel.ErrorsBringContext | pkg/processor/processor.go:236-245 | The output for an error past the cache: the recent history, the trigger's copy from the context, the entry |
| ProcessorModel.OutputsExactly | pkg/processor/processor.go:214-246 | The output in every other case: the entry alone after a profile error and for a new cluster or no tokens, nothing for a dropped entry, a cache hit and one that joined a cluster |
| ProcessorModel.FlattenInOrder | pkg/processor/processor.go:150-166 | The output of a batch has the output of each entry in the place of that entry |
| ProcessorModel.TallyCounts | pkg/processor/processor.go:155-173 | The counters of a profile count the entries with that label, or without one for the unknown profile, the matched ones of these, and what was put out for them |
| Processor.Processor.ProcessEntry | pkg/processor/processor.go:214-246 | The output and the engine's new state are those of one more arrival; profile errors and drops leave the engine alone |
| Processor.Processor.ProcessBatch | pkg/processor/processor.go:155-182 | The outputs of the batch's entries one after the other, in the order of the batch, and for every profile how many entries there were, were put out and matched |
| ProcessorModel.CountersAddUp | pkg/processor/processor.go:155-182 | The counters of all profiles add up to the batch and to its whole output |
| QueueModel.NextKeepsWakeups | internal/queue/queue.go:36-55 | Every step keeps: beside a parked consumer there are at most as many items as signalled consumers; dually for producers and free slots; none is parked after Close |
| QueueModel.RunKeepsWakeups | internal/queue/queue.go:72-88 | This holds in every state of every run, for any number of threads |
| QueueModel.WokenConsumerProgresses | internal/queue/queue.go:113-136 | A signalled consumer that finds items takes at least one and leaves |
| QueueModel.WokenProducerProgresses | internal/queue/queue.go:44-54 | A signalled producer that finds a free slot pushes its item and leaves; on a closed queue it leaves without |
| QueueModel.StrandedNever | internal/queue/queue.go:113-136 | A consumer parked beside items has a signalled one coming, dually for producers |
| QueueModel.Quiescence | internal/queue/queue.go:200-211 | With nobody left to resume, consumers wait only on an empty open queue, producers only on a full open one, and not both |
| QueueModel.ZeroBatchStrands | internal/queue/queue.go:113-136 | A batch of size zero strands another consumer beside an item |
| QueueModel.NobodyStrandedIff | internal/queue/queue.go:113-136 | No run strands a thread iff every batch asks for at least one item |
| QueueModel.NextKeepsFifo | internal/queue/queue.go:36-55 | Every step keeps the order of items and the capacity, and pushes nothing once closed |
| QueueModel.RunIsFifo | internal/queue/queue.go:138-163 | In every run, removed items then held items are the pushed sequence, within capacity |
| QueueModel.NothingPushedAfterClose | internal/queue/queue.go:200-211 | After Close, what is removed later and what is still held is what was held at Close, in order |
| QueueModel.EverybodyMayLeave | internal/queue/queue.go:200-211 | In a closed queue every thread inside can resume |
| QueueModel.ClosedQueueEmpties | internal/queue/queue.go:200-211 | After Close every resume takes one thread out for good: as many as were inside leave nobody |
| Queue.Queue.Push | internal/queue/queue.go:36-55 | The first critical section of Push is a step of the protocol: fails iff closed, parks iff full, otherwise the item is last |
| Queue.Queue.ResumePush | internal/queue/queue.go:44-54 | So is the continuation after a wait, with the same cases |
| Queue.Queue.Pop | internal/queue/queue.go:72-88 | The first critical section of Pop is a step of the protocol: the oldest item, or a wait, or a failure when closed and empty |
| Queue.Queue.PopBatch | internal/queue/queue.go:113-136 | The first critical section of PopBatch is a step of the protocol: the oldest items, at most maxSize, and exactly that many unless nothing is left |
| Queue.Queue.ResumePop | internal/queue/queue.go:76-87 | So is the continuation of either after a wait, with the same batches |
| Queue.Queue.TryPop | internal/queue/queue.go:138-150 | A step of the protocol; takes the oldest item, or nothing from an empty queue |
| Queue.Queue.TryPush | internal/queue/queue.go:152-163 | A step of the protocol; fails iff closed or full |
| Queue.Queue.Close | internal/queue/queue.go:200-211 | A step of the protocol: closes once and wakes everybody |
| Queue.Queue.Clear | internal/queue/queue.go:213-218 | A step of the protocol: removes all items and wakes the producers |
| RateLimitModel.RefillSpendsTime | pkg/auth/ratelimit.go:104-114 | A floored refill turns time into tokens and never into more |
| RateLimitRefills.RefillKeepsCredit | pkg/auth/ratelimit.go:104-114 | A refill loses less than one token of credit, unless it ends at the burst |
| RateLimitRefills.EarnedIsAdmitted | pkg/auth/ratelimit.go:103-122 | Of any number of requests at one instant exactly the tokens there are and those that the time since the last refill has earned are admitted, up to the burst |
| RateLimitRefills.UnknownKeyHasABurst | pkg/auth/ratelimit.go:89-98 | Of any number of requests of an unknown key at one instant exactly a burst is admitted |
| RateLimitRefills.DeniedIff | pkg/auth/ratelimit.go:103-122 | A request is denied iff its bucket is empty and less than a token has been earned since the last refill |
| RateLimitRefills.EventsTouchTheirKey | pkg/auth/ratelimit.go:88-189 | A request leaves the buckets of other keys alone; a cleanup removes exactly those not refilled for five minutes and changes none |
| RateLimitModel.StepSpendsCredit | pkg/auth/ratelimit.go:88-123 | Whole requests (no cleanup between lookup and draw): an admitted one costs a token of credit; otherwise credit grows with time at the rate or less |
| RateLimitModel.WindowBound | pkg/auth/ratelimit.go:88-123 | Whole requests (no cleanup between lookup and draw): in any window fewer of a key are admitted than burst + rate * window + 1 |
| RateLimitTheorems.SameAnswers | pkg/auth/ratelimit.go:164-189 | Whole requests (no cleanup between lookup and draw): when eviction is harmless, evicting and never evicting give the same answers on every history with one clock reading per request, and on every history at all if a nanosecond earns a token |
| RateLimitTheorems.EvictionUnobservableIff | pkg/auth/ratelimit.go:164-189 | Whole requests (no cleanup between lookup and draw): with one clock reading each they agree on all histories iff an idle bucket has earned a full burst when it is evicted |
| RateLimitTheorems.FiveMinutesSuffice | pkg/auth/ratelimit.go:168-180 | That condition in numbers; five times the rate reaching the burst is enough |
| RateLimitTheorems.RateBoundIff | pkg/auth/ratelimit.go:88-123 | Whole requests (no cleanup between lookup and draw): the rate bound holds for all keys, histories and windows iff that condition holds |
| RateLimitTheorems.TwoReadingsObserveEviction | pkg/auth/ratelimit.go:92-104 | For every limiter with bursts and harmless eviction that earns less than a token in a nanosecond, an explicit history of whole requests on which an eviction changes an answer |
| RateLimitTheorems.EvictionNeverObservedIff | pkg/auth/ratelimit.go:88-180 | Whole requests (no cleanup between lookup and draw): with the two clock readings of the code, evicting and never evicting agree on all histories iff there are no bursts, or eviction is harmless and a nanosecond earns a token |
| RateLimitThreads.PerformSpendsCredit | pkg/auth/ratelimit.go:88-189 | Any critical section of any thread: an admission from the bucket in the map costs a token of credit; otherwise credit grows with time at the rate or less |
| RateLimitThreads.AttachedWindow | pkg/auth/ratelimit.go:88-189 | On all interleavings, with harmless eviction or none, fewer requests of a key are admitted from buckets in the map in any window than burst + rate * window + 1 |
| RateLimitThreads.DetachedAreCaught | pkg/auth/ratelimit.go:89-98 | Evicted buckets admit at most once for each thread that holds one at the start of the window or is caught inside by a cleanup |
| RateLimitThreads.WholeRequest | pkg/auth/ratelimit.go:88-123 | A lookup and a draw with nothing in between are the request of the model of whole requests |
| RateLimitThreads.WholeCleanup | pkg/auth/ratelimit.go:164-189 | Removing the names of all idle buckets is the cleanup of that model |
| RateLimitRaces.ThreadedRun | pkg/auth/ratelimit.go:88-189 | Every history of whole requests of a key, as one of a single thread that looks up and draws, ends in the same buckets with the same admissions |
| RateLimitRaces.MapWithinRateIff | pkg/auth/ratelimit.go:88-189 | On all interleavings admissions from buckets in the map keep to the rate bound iff an idle bucket earns a full burst before it is evicted |
| RateLimitRaces.CaughtThreadsExceedRate | pkg/auth/ratelimit.go:88-189 | Under that condition all admissions stay below the bound plus one for each thread that holds an evicted bucket at the start of the window or is caught inside by a cleanup |
| RateLimitRaces.OneCaughtThreadIsTooMany | pkg/auth/ratelimit.go:88-189 | For every limiter with bursts and harmless eviction, an explicit interleaving with one caught thread that admits a burst and one more at one instant |
| RateLimitRaces.AllWithinRateIff | pkg/auth/ratelimit.go:88-189 | All admissions keep to the rate bound on all interleavings iff there are no bursts |
| RateLimitRaces.CaughtThreadNotices | pkg/auth/ratelimit.go:88-189 | For every limiter with bursts and harmless eviction, an explicit interleaving, with one clock value for each request, on which an eviction changes an answer |
| RateLimitRaces.EvictionUnnoticedIff | pkg/auth/ratelimit.go:88-189 | Evicting and never evicting give the same answers on all interleavings iff there are no bursts |
| RateLimiter.TokenBucket.TakeToken | pkg/auth/ratelimit.go:103-122 | On the shared bucket in place: the tokens earned join those there are, up to the burst, the time of the refill is kept when any were earned, and one is taken iff there is one |
| RateLimiter.RateLimiter.Lookup | pkg/auth/ratelimit.go:89-98 | The thread holds the object that the map has under the key, a new full bucket if there was none |
| RateLimiter.RateLimiter.Draw | pkg/auth/ratelimit.go:100-122 | The thread draws from the object it holds, which a cleanup may have taken out of the map; answer and whole new state are those of the section |
| RateLimiter.RateLimiter.Allow | pkg/auth/ratelimit.go:88-123 | Both sections in a row: answer and new contents of the map are those of a whole request, and nobody else inside is affected |
| RateLimiter.RateLimiter.SweepKey | pkg/auth/ratelimit.go:172-180 | One round of the loop: the key is deleted iff its bucket was refilled before the cutoff |
| RateLimiter.RateLimiter.Cleanup | pkg/auth/ratelimit.go:164-189 | Its rounds, with one clock reading and in any order, delete exactly the buckets not refilled for five minutes; threads inside keep theirs |
| RouterModel.NextPause | pkg/output/router.go:170-190 | The closed form starts at the initial pause, uncut, and each next value is twice the last, cut at the maximum |
| RouterModel.TotalPauseBoundIff | pkg/output/router.go:170-192 | All pauses of a failing call stay within (attempts - 1) * maximum iff there is one attempt or the initial pause is at most the maximum |
| RouterModel.CounterIsFailureRun | pkg/output/router.go:291-303 | The counter is the length of the current run of failures, modulo the maximum when there is one |
| RouterModel.OpenIffRecentTrip | pkg/output/router.go:284-298 | After any Sends, the breaker is open exactly during the cooldown of a Send whose failure run was a multiple of the maximum |
| RouterModel.CallsAreTheirSends | pkg/output/router.go:179-192 | Over many calls the breaker sees the Sends they make as one sequence |
| RouterModel.SendsBetweenOpenings | pkg/output/router.go:179-192 | A failing output gets at most maximum - 1 + attempts Sends up to and including the call that opens the breaker |
| RouterModel.SendsOverTime | pkg/output/router.go:153-192 | Over any stretch of calls: that many per opening, plus maximum - 1; and openings are a cooldown apart |
| Router.CircuitBreaker.CheckOpen | pkg/output/router.go:284-289 | Open iff now is before the end of the cooldown |
| Router.CircuitBreaker.OnFailure | pkg/output/router.go:291-298 | Counts, and opens at the maximum |
| Router.CircuitBreaker.OnSuccess | pkg/output/router.go:300-303 | Resets the count and leaves the cooldown |
| Router.SendToOutput | pkg/output/router.go:153-192 | Sends go on up to the first success or the configured number; the first pause is the initial one and each next is twice the last, cut at the maximum; outcome and the breaker's new state for every way the attempts can end; nothing at all without an adapter |
| Router.DetermineOutputs | pkg/output/router.go:128-143 | The output that the label names if it exists, otherwise every output once |
| Router.GroupByOutput | pkg/output/router.go:89-97 | For every output exactly the entries that go to it, in the order of the batch; no output without entries |
| Router.RoutedInOrder | pkg/output/router.go:89-97 | The entries of an output are those that go to it, each once, in the order of the batch |
| Router.EntriesAreRouted | pkg/output/router.go:84-143 | Every entry goes somewhere iff there are outputs; one that names an existing output goes nowhere else |
| BufferModel.StepKeepsInv | pkg/ingestion/buffer.go:65-147 | Every step of every thread keeps conservation, order and batch sizes |
| BufferModel.RunKeepsInv | pkg/ingestion/buffer.go:65-147 | In every interleaving: the accepted sequence is all flushed batches, the pending batch, the channel; batches have a size from 1 to the maximum |
| BufferModel.NothingPendingWhenDone | pkg/ingestion/buffer.go:85-100 | Once the worker has returned, every accepted entry is in a delivered or dropped batch |
| BufferModel.NothingAcceptedAfterClose | pkg/ingestion/buffer.go:65-79 | No interleaving accepts an entry after Close |
| BufferModel.WholeAdd | pkg/ingestion/buffer.go:65-79 | A test for closed and a send with nothing in between accept the entry if there is room in an open buffer, change nothing otherwise, and never panic |
| BufferModel.CaughtThreadsPanic | pkg/ingestion/buffer.go:65-100 | In every interleaving after Close, the threads that were between test and send at the Close are exactly those that have panicked and those still to send |
| BufferModel.NobodyPanicsIff | pkg/ingestion/buffer.go:65-100 | No continuation after Close makes an Add panic iff no thread is between its test and its send when the channel is closed |
| BufferModel.WorkerFinishes | pkg/ingestion/buffer.go:126-141 | A closed buffer is finished by its worker alone, in one step per entry and one more |
| BufferModel.EntriesAddUp | pkg/ingestion/buffer.go:109-124 | Accepted entries are delivered, dropped or still inside, counted |
| BufferModel.DropsOnlyWhenFull | pkg/ingestion/buffer.go:109-124 | A flush drops its batch exactly when the batch channel is full |
| BufferModel.FlushedWhenFull | pkg/ingestion/buffer.go:126-138 | What the worker receives is flushed exactly when the pending batch reaches its maximum, as a batch of that size |
| BufferModel.FlushedOtherwise | pkg/ingestion/buffer.go:126-142 | A tick and the end of the worker flush what is pending; no other step flushes anything |
| Buffer.Buffer.CheckOpen | pkg/ingestion/buffer.go:66-71 | Whether the buffer is open, under the lock; the thread is then inside with its entry |
| Buffer.Buffer.Send | pkg/ingestion/buffer.go:73-78 | Panics iff the channel was closed in the meantime; otherwise accepted iff there is room, and then last in the channel |
| Buffer.Buffer.Add | pkg/ingestion/buffer.go:65-79 | Both in a row: accepted iff open and with room; then last in the channel |
| Buffer.Buffer.FlushBatch | pkg/ingestion/buffer.go:109-124 | The pending batch goes to the batch channel or is dropped, and the drop counters agree with what was dropped |
| Buffer.Buffer.ReceiveEntry | pkg/ingestion/buffer.go:126-138 | The oldest entry joins the pending batch, which is flushed at its maximum |
| Buffer.Buffer.TickOnce | pkg/ingestion/buffer.go:140-142 | A tick leaves nothing pending in the worker |
| Buffer.Buffer.TakeBatch | pkg/ingestion/buffer.go:81-83 | A consumer takes the oldest batch of the batch channel |
| Buffer.Buffer.CloseAndWait | pkg/ingestion/buffer.go:85-100 | The first Close returns with everything flushed and nothing pending; a later one changes nothing |
| Rules.EscapePass | cmd/logsieve/main.go:616-618 | One pass of the replacement escapes one more character, because the backslash goes first |
| Rules.EscapeRegex | cmd/logsieve/main.go:613-620 | The passes together put one backslash before every special character |
| Rules.TemplateToRegex | cmd/logsieve/main.go:601-611 | The loop builds the anchored rule, holes as non-space runs |
| Rules.ParseRule | cmd/logsieve/main.go:601-611 | The generated text parses as the items meant by the template: literals, holes, separators |
| Rules.RuleMeaning | cmd/logsieve/main.go:601-620 | The rule matches a line iff the line has no outer white space, splits into as many fields as tokens, and each field is its token or at a hole |
| Learn.PlainLinesFitThemselves | pkg/dedup/drain3.go:255-288 | A line without delimiters and outer white space fits its own tokens, masks included |
| Learn.LearnedLineIsMatched | cmd/logsieve/main.go:255-263 | Every analysed line that fits its own tokens is matched by the final rule of its cluster |
| Learn.AlwaysMatchedIff | cmd/logsieve/main.go:601-620 | A line is matched by its cluster's rule in every file iff it fits its own tokens |
| Learn.InnerDelimiterIsMissed | pkg/dedup/drain3.go:255-288 | The line a_b does not fit its own tokens, and some file has a rule that misses it, for every tokenizer that splits at the underscore and not at the letters a and b, whatever its masking |
| Learn.SizesCountMessages | cmd/logsieve/main.go:273-277 | The sizes of chosen clusters count the messages that went to them |
| Learn.AnalyseLines | cmd/logsieve/main.go:255-263 | Blank lines are skipped; the others are clustered in order |
| Learn.AnalysedInOrder | cmd/logsieve/main.go:255-263 | The lines that are clustered are those with more than white space, each once, in the order of the file |
| Learn.SelectRules | cmd/logsieve/main.go:283-295 | Rules for the first clusters, just as many as reach the target, or all |
| Learn.LearnRules | cmd/logsieve/main.go:255-295 | The rules of the largest clusters up to the given part of all tokenised lines |
| Learn.PartIsTheWholePart | cmd/logsieve/main.go:280 | The target is the part of the messages without its fraction |
| Learn.FewestRules | cmd/logsieve/main.go:283-295 | No choice of fewer clusters holds as many messages as the target |
| Learn.LearnedRulesReachCoverage | cmd/logsieve/main.go:255-295 | For a coverage up to 1 the learned rules match at least that part of the lines, if all lines fit their own tokens |
| Selection.LargestDominate | pkg/dedup/drain3.go:535-554 | As many of the largest clusters hold at least as much as any choice |
| Selection.GreedyIsOptimal | cmd/logsieve/main.go:283-295 | Any choice that reaches the target has at least as many clusters as the loop took |
| Quoting.QuoteIsReadBack | pkg/output/loki.go:244 | A quoted text determines its content and where it ends, whatever follows |
| Quoting.InnerQuotesAreEscaped | pkg/output/loki.go:244 | Inside a quoted text every quote follows a backslash |
| StreamKeys.CreateStreamKey | pkg/output/loki.go:240-251 | The sorted items of all labels, joined, whatever the order of iteration |
| StreamKeys.StreamKeyIsUnique | pkg/output/loki.go:240-251 | Equal label sets have one key |
| StreamKeys.NoTwoReadings | pkg/output/loki.go:244-250 | Without commas in names, no text reads both as further items and as the rest of a value with items behind it |
| StreamKeys.JoinIsReadBack | pkg/output/loki.go:244-250 | Under either naming convention the joined text determines the list of items |
| StreamKeys.StreamKeyIsInjective | pkg/output/loki.go:240-251 | Keys are equal iff the label sets are, when no name has an equals sign before a quote, and when no name has a comma |
| StreamKeys.KeysCanCollide | pkg/output/loki.go:240-251 | For any two values, two labels and one label whose name swallows the first of them have the same key |
| StreamKeys.InjectiveOverIff | pkg/output/loki.go:240-251 | On all label sets with names over an alphabet, keys tell labels apart iff it lacks the equals sign, the quote or the comma |
| Loki.ExtractLabels | pkg/output/loki.go:157-194 | The core labels with the indexed custom labels over them, or the default one |
| Loki.StreamLabelsAreUsable | pkg/output/loki.go:157-194 | There is always a label, no value is empty, and indexed custom labels win |
| Loki.StreamLabelsExactly | pkg/output/loki.go:157-194 | Every label of a stream is an indexed custom label, a field of the entry under its own name, or the default job when there is nothing else |
| Loki.IndexedExactly | pkg/output/loki.go:182-238 | A custom label is indexed iff it has a value, does not start as context labels do, and is not one of the fourteen names of high cardinality |
| Loki.FieldsBecomeLabels | pkg/output/loki.go:161-179 | Each field of the entry that is not empty is the value of its own label, unless a custom label replaces it |
| Loki.ExtractStructuredMetadata | pkg/output/loki.go:197-217 | Exactly the high-cardinality labels with a value and the context labels |
| Loki.MetadataExactly | pkg/output/loki.go:197-217 | Metadata are the context labels with any value and the other labels with a value that are not indexed |
| Loki.LabelsAreIndexedOrMetadata | pkg/output/loki.go:182-217 | A custom label with a value is indexed or metadata, and never both |
| Loki.GroupingStep | pkg/output/loki.go:123-147 | Putting an entry into its stream keeps every stream the list of the entries under its key |
| Loki.GroupingIsPartition | pkg/output/loki.go:120-155 | When all stream label names follow one of the two conventions: one stream per label set, with exactly the entries that have it, in order |
| Loki.ValuesInOrder | pkg/output/loki.go:123-147 | The values of a label set are the entries that have it, each once in the order of the batch, with their own time, text and metadata |
| Loki.GroupByLabels | pkg/output/loki.go:120-155 | The loop computes the streams of all keys, each value with its metadata when those are in use, and that partition when names are readable |
| Loki.PartitionOverIff | pkg/output/loki.go:120-155 | Batches with custom label names over an alphabet are always partitioned iff it lacks the equals sign, the quote or the comma |

## Left out

- HTTP, the command line, metrics, logging, YAML, and the network side of the Loki, Elasticsearch and S3 adapters: input and output. An adapter's Send is an outcome given from outside.
- SHA-256: the fingerprint is any function; where it matters it is required to be injective on message texts.
- The masking patterns: a masking rule is an arbitrary test on a token. Delimiters are single characters, as the default ones are.
- Floating point: similarity, coverage and refills are computed exactly.
- Integer overflow, and label values that are not valid UTF-8.
- The Created and Updated times of clusters, ExtractParameters, GetTopTemplates and PrintTree.
- MaxClusters: the code never enforces it, so no bound on the number of clusters is stated.
- ContextWindow.ContextWindow.GetContext: the original writes `context_` labels into label maps that it shares with the stored entries; entries are values here, and these labels are not modelled.
- PushWithTimeout and PopWithTimeout: their goroutine may still push or pop after the timeout.
- PopBatch with a negative size: the original panics.
- Queue.Queue.Push: the wait loop is modelled by parking and resuming; that a signalled thread does run again is up to the scheduler and not stated.
- The worker's goroutine and its select: which ready case comes first is left open in BufferModel; class Buffer has one method per case.
- disk_buffer.go: its behaviour rests on files shared by a writer and a reader.
- The goroutines of Route and the order in which their errors are collected; one call per output at a time is assumed, as the processing loop makes them. Races on the breaker's fields are not modelled.
- Processor.Processor.ProcessBatch: returns the outputs and the counters; the call of Route with these outputs and the ratios reported from the counters are not part of the method.
- Profile detection: what a profile decides is given from outside.
- Start and Stop of the processor: the loop may end before the buffer is closed, so that accepted entries need not be processed.
- pkg/config, pkg/profiles, the authentication middleware and the parsers: lookups and field tests.
