# Verified model of the NEAR indexing pipeline

A Dafny model of what the SubQuery NEAR node does with one block, from deciding which blocks to fetch to
calling handlers, with proofs of what the parts keep and of how they fit together. `dafny verify dfyconfig.toml`
checks the whole project.

## Parts

| part | modules | shape |
|---|---|---|
| Dictionary compiler: handler filters become a disjunction of equality conjunctions plus block moduli, so that only relevant blocks are fetched | `ProjectModel`, `QueryEntries`, `Dedup`, `Dictionary`, `ManifestLaws`, `DictionaryLaws`, `Coverage` | methods with the source's loops and early returns, proved against `Compile` and `Modulos`; lemmas about those |
| Run-time filters, the simple form the compiler speeds up | `Filters` | predicates, branch by branch |
| Concurrent block assembly (`wrapBlock`) | `Assembly`, `WrapBlock` | an event machine (`Assembly`) over every interleaving, and the heap objects with their in-place links (`WrapBlock`), proved to show the machine's state |
| Delivery traversal (`indexBlockData`) | `Indexer`, `DeliveryLaws` | the nested loops as methods on a manager object, proved against the trace `NestedItems`; lemmas relating it to the direct grouped traversal |
| From the dictionary to the handlers | `Pipeline` | one theorem across all of the above |
| Cron block filter | `Cron` | seeker and schedule objects; run theorem over whole runs |
| Worker cache and its dispatcher counterpart | `Worker`, `BatchFetch` | an event machine, the service object proved against it, batch fetching with `Promise.all` in any settling order |

`NearTypes` holds the data the node answers with and the data handlers see; `Seqs` and `Divisibility` hold
general lemmas about sequences and remainders.

An event of `Assembly` is the synchronous code between two `await`s. A schedule is any order in which the event
loop may deliver events (`Valid`), and the theorems quantify over all of them, finished or not. A filter object is
the list of its own string properties (`IsObject`: no property twice), in the order of `Object.entries`. An indexed
item is a `Row`, a map from filter field names to strings; an entry holds on a row when all its conditions do.
The chain is a fixed function from height to block, skipped height or failure.

## What the code does that its names or comments do not say

- Receipts are traversed inside the transaction loop: each receipt and each receipt action is delivered once per
  transaction of the block, so never in a block without transactions and twice in a block with two
  (`DeliveryCounts`). With shared ids an action is delivered once per owner of its id (`DeliveryCountsExact`).
- Traversal by id equals the grouped traversal if and only if no transaction that shares its outcome id carries
  actions and, when there is a transaction at all, no receipt that shares its id does (`RegroupExact`); otherwise
  it is strictly longer (`DeliveryTotal`). Distinct ids suffice. That any two event orders make the same calls needs
  no such condition (`ScheduleIndependence`).
- A compiled entry agrees with the run-time filter if and only if the filter has no property the run-time filter
  ignores and no empty value: an empty `sender` is ignored at run time yet becomes a condition
  (`TransactionEntryExact`, `ReceiptEntryExact`). For actions only an empty `sender` or `receiver` matters, because
  any other unusual property makes the filter accept nothing (`ActionEntryExact`). Outside that condition a concrete
  accepted item is not selected (`TransactionEntryMisses`, `ReceiptEntryMisses`, `ActionEntryMisses`).
- Whether its block is then skipped depends on the whole query, because another handler's entry may find it. For any
  project, query and start height, every accepted block is visited if and only if the filter is `Covered`
  (`CoverageExact`): the query is empty, a modulus is 1 or -1, or some entry asks for nothing that the filter does
  not itself require. For actions the owner's transaction and receipt entries may stand in, but only both together.
  A faithful filter is always covered (`FaithfulIsCovered`); with a single handler no other filter is
  (`FaithfulExact`).
- The compiled query also reports nothing superfluous: every reported block is one a considered handler asks for
  (`ReportedIsWanted`), and with faithful filters the two are the same (`DictionaryMeaning`).
- `filterAction` never accepts an action when the filter names `signer`, FunctionCall `args`, AddKey `accessKey` or
  Stake and Delegate `publicKey`: the lookup yields nothing, a String object or another object, never the primitive
  string (`CanAcceptExact`).
- `getModulos` reads static non-custom sources only, so a block handler of a dynamic or custom source is covered if
  and only if the query is empty (a full scan) or some static modulus divides its own, however late the source
  starts (`BlockHandlerExact`);
  `DynamicBlockHandlerMissed` gives a project and a block where it is not.
- The loop that nulls `receipt.Action.actions` on its first pass still visits every action, because the list is read
  once (`LinkReceipt`); a receipt with an empty action list keeps that list.
- Null cache entries of the worker are never deleted: they are fetched again by every later fetch, and counted by
  `numFetchedBlocks` for good (`NumFetchedBlocksExact`). `processBlock` throws exactly when no completed fetch of
  the height is left (`ThrowsExact`).
- The `next` getter of a cron schedule advances the seeker on every read, yet one check moves it by one occurrence
  on acceptance and by none on rejection (`FilterBlockTimestamp`).

## Model

| member | source | states |
|---|---|---|
| WrapBlock.WrapBlock | packages/node/src/utils/near.ts:95-153 | for every event order, the heap block built in place shows exactly the state the event machine reaches |
| WrapBlock.NearBlock.CompleteTransaction | packages/node/src/utils/near.ts:111-128 | one transaction continuation is one machine step: transaction and its parsed, owned actions appended, nothing else changed |
| WrapBlock.NearBlock.LinkReceipt | packages/node/src/utils/near.ts:139-143 | although the receipt's list is nulled in the first pass, every action is visited, linked to this receipt and appended in order, and no action stays on the receipt |
| WrapBlock.NearBlock.LinkReceipts | packages/node/src/utils/near.ts:137-145 | the loop over a chunk's receipts appends all their actions in order, each linked to its own receipt |
| WrapBlock.NearBlock.FinishChunk | packages/node/src/utils/near.ts:132-147 | the tail of a chunk is one machine step; every link goes to a receipt object stored in this block |
| WrapBlock.WrapActions | packages/node/src/utils/near.ts:122-124 | fresh action objects, numbered by position, parsed from the raw action there, with the given transaction and no receipt |
| WrapBlock.WrapTransactionReceipts | packages/node/src/utils/near.ts:175-216 | one receipt object per raw receipt, position by position, with fresh action objects that no two receipts share |
| Assembly.ScheduleExact | packages/node/src/utils/near.ts:108-150 | the schedules are exactly the orders without repetition in which every continuation follows what it awaits |
| Assembly.TransactionStep | packages/node/src/utils/near.ts:111-128 | a completed transaction appends itself, with every property of the raw one, and its own actions position by position, and nothing else |
| Assembly.FinishStep | packages/node/src/utils/near.ts:130-147 | a finished chunk appends its receipts and their actions in the order of the chunk, position by position, and nothing else |
| Assembly.RunIsFold | packages/node/src/utils/near.ts:108-150 | in every reachable state the shared arrays are the concatenation of what the delivered events contribute |
| Assembly.ActionsPartition | packages/node/src/utils/near.ts:122-147 | in every reachable state the actions without a receipt are, in order, those of the stored transactions, and the actions with one are, in order, the original actions of the stored receipts |
| Assembly.Ownership | packages/node/src/utils/near.ts:122-144 | in every reachable state each action has exactly one of transaction and receipt, and its owner is stored in the block |
| Assembly.StoredTransaction | packages/node/src/utils/near.ts:155-173 | every stored transaction is some node transaction with all its properties, stamped with this block's hash, height, time and gas price, its id, logs and receipt ids taken from its own outcome |
| Assembly.StoredReceipt | packages/node/src/utils/near.ts:175-216 | every stored receipt is the chunk's receipt at the position its id says, with the chunk's height and every property of its Action or Data body; only an Action body brings actions |
| Assembly.StoredAction | packages/node/src/utils/near.ts:218-266 | every stored action is the one its owner lists at the position its id says, payload unchanged but for boxed arguments |
| Assembly.Termination | packages/node/src/utils/near.ts:108-150 | no schedule exceeds a number of steps fixed by the input, and the block is finished exactly at that number, by a permutation of the same events |
| Assembly.Progress | packages/node/src/utils/near.ts:108-150 | while the block is not finished some continuation can run |
| Assembly.Completable | packages/node/src/utils/near.ts:150 | every partial schedule extends to one that finishes the block |
| Assembly.StepCount | packages/node/src/utils/near.ts:108-150 | every finished schedule has two steps per chunk and one per transaction |
| Assembly.Conservation | packages/node/src/utils/near.ts:108-150 | whatever the schedule, the finished transactions, receipts and actions are permutations of those of all chunks |
| Assembly.ChunkOrder | packages/node/src/utils/near.ts:130-147 | a finished chunk's receipts stay contiguous and in the order of the chunk, its receipt actions contiguous and ordered by receipt position and then action position, and all actions of its transactions, with multiplicity, come before them |
| Indexer.IndexerManager.IndexBlockContent | packages/node/src/indexer/indexer.manager.ts:144-152 | the block goes to every data source in list order |
| Indexer.IndexerManager.IndexTransaction | packages/node/src/indexer/indexer.manager.ts:154-162 | a transaction goes to every data source in list order |
| Indexer.IndexerManager.IndexAction | packages/node/src/indexer/indexer.manager.ts:164-172 | an action goes to every data source in list order |
| Indexer.IndexerManager.IndexReceipt | packages/node/src/indexer/indexer.manager.ts:174-182 | a receipt goes to every data source in list order |
| Indexer.ActionsOfTransaction | packages/node/src/indexer/indexer.manager.ts:122-127 | exactly the receipt-less actions of the outcome id, in order; the dereference of `transaction` is safe on assembled blocks |
| Indexer.ActionsOfReceipt | packages/node/src/indexer/indexer.manager.ts:133-136 | exactly the actions linked to a receipt of that id, in order |
| Indexer.IndexerManager.IndexTransactionPass | packages/node/src/indexer/indexer.manager.ts:120-141 | one pass of the transaction loop delivers the transaction, the actions looked up for it, and then every receipt with its looked-up actions |
| Indexer.IndexerManager.IndexBlockData | packages/node/src/indexer/indexer.manager.ts:113-142 | the loops over the heap block deliver exactly the nested trace, nothing more and in this order |
| DeliveryLaws.RegroupExact | packages/node/src/indexer/indexer.manager.ts:120-141 | on an assembled block the traversal by id equals the grouped one, or is as long as it, if and only if no transaction or visited receipt that shares its id carries actions; it is never shorter |
| DeliveryLaws.Regroup | packages/node/src/indexer/indexer.manager.ts:113-142 | on every reachable block with distinct ids the traversal by id is the direct grouped traversal |
| DeliveryLaws.TraversalOrder | packages/node/src/indexer/indexer.manager.ts:118-141 | position by position on any block: the block, then per transaction itself, its actions without a receipt in block order, and the same receipt loop, receipt by receipt with the linked actions |
| DeliveryLaws.TraceAt | packages/node/src/indexer/indexer.manager.ts:144-182 | call number i * D + j is for item i and data source j, under the handler kind of the item |
| DeliveryLaws.DeliveryCountsExact | packages/node/src/indexer/indexer.manager.ts:118-141 | the exact number of calls for any item of any block, whatever ids are shared: a transaction action once per transaction with its owner's id, a receipt once per transaction, a receipt action once per transaction and receipt with its owner's id |
| DeliveryLaws.DeliveryCounts | packages/node/src/indexer/indexer.manager.ts:118-141 | on reachable blocks with distinct ids, per data source: the block, each transaction and each transaction action once, each receipt and receipt action once per transaction, anything else never |
| DeliveryLaws.DeliveryTotal | packages/node/src/indexer/indexer.manager.ts:118-141 | on every reachable block the trace has at least D * (1 + T + At + T * (R + Ar)) calls, and exactly that many if and only if no transaction or visited receipt that shares its id carries actions |
| DeliveryLaws.ScheduleIndependence | packages/node/src/utils/near.ts:108-150 | any two finished schedules of the same chunks, with any ids, make the same handler calls as a multiset |
| DeliveryLaws.SegmentIndependence | packages/node/src/indexer/indexer.manager.ts:121-130 | when no two different transactions carry actions for its id, the calls for a transaction and the actions looked up for it are the same list in every schedule |
| DeliveryLaws.SegmentIndependenceExact | packages/node/src/indexer/indexer.manager.ts:121-130 | and the condition is exact: if two different transactions do, two schedules visit different lists |
| DeliveryLaws.SegmentExact | packages/node/src/indexer/indexer.manager.ts:121-130 | that list is the transaction and its own actions if and only if no other transaction carries actions for its id |
| DeliveryLaws.AssembleAndIndex | packages/node/src/indexer/indexer.manager.ts:113-142 | assembling under any event order and then traversing the heap block delivers the nested trace, which is the grouped one when no transaction or visited receipt that shares its id carries actions |
| Filters.GetMember | packages/node/src/utils/near.ts:316-326 | reading a property of a filter object finds exactly the property it has |
| Filters.FilterBlockModuloExact | packages/node/src/utils/near.ts:283-290 | a height passes if and only if there is no modulus, it is 0, or the height is a multiple of it |
| QueryEntries.FilterTransactionExact | packages/node/src/utils/near.ts:316-326 | accepts everything without a filter; otherwise exactly when sender and receiver, where present, are empty or equal |
| QueryEntries.FilterReceiptExact | packages/node/src/utils/near.ts:345-361 | the same for receipts; a non-empty signer must be that of an action receipt |
| QueryEntries.FilterActionExact | packages/node/src/utils/near.ts:380-412 | for any filter, with or without a type: accepts exactly when each property is an empty or equal owner field, an empty or matching type, or equals the payload's string of that name |
| QueryEntries.CompiledEntries | packages/node/src/indexer/fetch.service.ts:47-96 | the three entries ask, condition by condition in the order of the properties, for equality with each property |
| QueryEntries.TransactionEntryExact | packages/node/src/indexer/fetch.service.ts:47-62 | the entry selects exactly what `filterTransaction` accepts, on all transactions, if and only if the filter has only non-empty sender and receiver |
| QueryEntries.TransactionEntryMisses | packages/node/src/utils/near.ts:316-326 | for every other filter, a transaction the filter accepts and the entry does not select |
| QueryEntries.ReceiptEntryExact | packages/node/src/indexer/fetch.service.ts:64-79 | the same for receipts with sender, receiver and signer |
| QueryEntries.ReceiptEntryMisses | packages/node/src/utils/near.ts:345-361 | for every other filter, a receipt the filter accepts and the entry does not select |
| QueryEntries.FilterActionMember | packages/node/src/utils/near.ts:380-412 | `filterAction` with a type accepts exactly when each property, one by one, is an ignorable empty owner field or equals the action's projected field |
| QueryEntries.CanAcceptExact | packages/node/src/utils/near.ts:396-409 | `filterAction` accepts some action of a block `wrapBlock` returns if and only if the filter names a known type and, besides the owner fields, only keys mapped to primitive strings of that type |
| QueryEntries.ActionEntryExact | packages/node/src/indexer/fetch.service.ts:81-96 | the entry selects exactly what `filterAction` accepts, among the actions of the blocks `wrapBlock` returns, if and only if no owner field is empty or nothing can be accepted |
| QueryEntries.ActionEntryMisses | packages/node/src/utils/near.ts:380-412 | otherwise, an action of a returned block that the filter accepts and the entry does not select |
| Assembly.TransactionReturned | packages/node/src/utils/near.ts:108-152 | `wrapBlock` returns, for a chunk with one transaction, exactly that transaction and its actions |
| Assembly.ReceiptReturned | packages/node/src/utils/near.ts:108-152 | `wrapBlock` returns, for a chunk with one receipt, exactly that receipt and its actions |
| QueryEntries.PayloadRowKeys | packages/node/src/utils/near.ts:66-93 | of each action type exactly these mapped keys yield a primitive string |
| Dedup.SortCanonical | packages/node/src/indexer/fetch.service.ts:235-237 | sorting conditions with distinct fields gives the same list for every permutation |
| Dedup.KeyOrderIrrelevant | packages/node/src/indexer/fetch.service.ts:234-237 | filters that differ only in key order compile to entries with one key |
| Dedup.KeyMeaning | packages/node/src/indexer/fetch.service.ts:234-237 | entries with equal keys have the same conditions and hold on the same rows |
| Dedup.KeyExact | packages/node/src/indexer/fetch.service.ts:234-237 | two entries have one key if and only if they have one entity and, field by field, the same conditions in the same order |
| Dedup.UniqByExact | packages/node/src/indexer/fetch.service.ts:232-238 | the result is the subsequence of exactly the first occurrences of each key |
| Dedup.UniqByDistinct | packages/node/src/indexer/fetch.service.ts:232-238 | the kept keys are pairwise distinct |
| Dedup.UniqByMeaning | packages/node/src/indexer/fetch.service.ts:232-238 | the result selects exactly the rows the raw list selects |
| Dedup.ReorderedFiltersCollapse | packages/node/src/indexer/fetch.service.ts:232-238 | the entries of two filters that differ only in key order are represented by one and the same kept entry |
| ProjectModel.GetAllDataSources | packages/node/src/indexer/project.service.ts:75-81 | exactly the static and dynamic sources whose start block is defined and reached |
| ProjectModel.AllDataSourcesExact | packages/node/src/indexer/project.service.ts:78-80 | the result lists the started positions of the static list followed by the dynamic one, in order and each once |
| ProjectModel.SortByStartLaws | packages/node/src/indexer/fetch.service.ts:140-143 | the sort is a permutation, ascending by start block, and keeps the order of sources with one start block |
| ProjectModel.FilteredDsExact | packages/node/src/indexer/fetch.service.ts:140-143 | the considered sources have started, ascend by start block, and those with one start block keep the order of the manifest, static first |
| ProjectModel.ActiveSourcesAgree | packages/node/src/indexer/fetch.service.ts:140-143 | when no source starts in between, the sources that run at a height are a permutation of those the compiler considered |
| Dictionary.GetBaseHandlerKind | packages/node/src/indexer/fetch.service.ts:296-313 | the handler's own kind, its processor's base kind, or undefined; an error exactly for a named handler of a custom source whose processor or base kind is missing |
| Dictionary.CompileHandler | packages/node/src/indexer/fetch.service.ts:149-228 | one pass of the handler loop throws, falls back or contributes as `HandlerExact` and `HandlerEntries` say |
| Dictionary.CompileDataSource | packages/node/src/indexer/fetch.service.ts:145-229 | the handler loop of one source stops at the first handler that throws or falls back, otherwise collects all entries |
| Dictionary.BuildDictionaryQueryEntries | packages/node/src/indexer/fetch.service.ts:135-239 | the loops with early returns compute the compiled query: the first deciding visit wins, otherwise all entries, deduplicated |
| Dictionary.GetModulos | packages/node/src/indexer/fetch.service.ts:269-286 | exactly the non-zero moduli of block handlers of static non-custom sources, in order |
| ManifestLaws.HandlerExact | packages/node/src/indexer/fetch.service.ts:149-228 | a handler throws exactly when its lookup fails, and asks for a full scan exactly when it has no filter or one without a non-empty sender or receiver, sender, receiver or signer, type, or non-zero modulo, by kind |
| ManifestLaws.HandlerEntries | packages/node/src/indexer/fetch.service.ts:164-224 | otherwise it contributes one entry per defined filter, in their order and condition by condition, and nothing for block handlers and unknown kinds |
| ManifestLaws.VisitsInOrder | packages/node/src/indexer/fetch.service.ts:145-149 | sources are looked at one after the other in their sorted order, and each source's handlers in theirs |
| ManifestLaws.CompileExact | packages/node/src/indexer/fetch.service.ts:135-239 | the first look that throws or asks for a full scan decides; otherwise all contributions are concatenated and deduplicated |
| ManifestLaws.FallbackExact | packages/node/src/indexer/fetch.service.ts:172-225 | when no lookup fails, the query is empty exactly when some handler of a started source has no filter or one too wide for its kind, or no handler can contribute an entry |
| ManifestLaws.ModulosExact | packages/node/src/indexer/fetch.service.ts:269-286 | the moduli are listed source by source and handler by handler, each block handler's non-zero modulus of a static non-custom source once |
| DictionaryLaws.FilterListSound | packages/node/src/indexer/fetch.service.ts:164-224 | for static, dynamic and custom sources alike: what any one filter of a handler's list accepts lies in a reported block |
| DictionaryLaws.DictionarySound | packages/node/src/indexer/fetch.service.ts:135-239 | every block in which a runtime handler's faithful filter accepts an item is visited: the query is empty, reports it, or a modulus hits it; only block handlers must be static |
| DictionaryLaws.DictionarySoundAt | packages/node/src/indexer/project.service.ts:75-81 | soundness for every runtime source that runs at the block's height, when no source starts in between |
| DictionaryLaws.ReportedIsWanted | packages/node/src/indexer/fetch.service.ts:135-239 | the converse, for any filters: a reported block has an item that a filter of a considered handler accepts, or a plugin's own query reports it |
| DictionaryLaws.DictionaryMeaning | packages/node/src/indexer/fetch.service.ts:135-239 | with faithful filters the compiled query reports exactly the blocks some considered handler asks for |
| Coverage.CoverageExact | packages/node/src/indexer/fetch.service.ts:135-286 | for any project, query, start height and filter of any kind: every accepted block `wrapBlock` can return from there on is visited if and only if the filter is covered by an entry or a modulus |
| Coverage.MissedTransactionAction | packages/node/src/utils/near.ts:380-412 | for an uncovered action filter without a covering transactions entry, a returned block with a transaction's action that is accepted and skipped |
| Coverage.MissedReceiptAction | packages/node/src/utils/near.ts:380-412 | for an uncovered action filter without a covering receipts entry, a returned block with a receipt's action that is accepted and skipped |
| Coverage.FaithfulIsCovered | packages/node/src/indexer/fetch.service.ts:182-238 | the compiled and deduplicated query covers every faithful filter of a considered handler |
| Coverage.FaithfulExact | packages/node/src/indexer/fetch.service.ts:182-225 | for a project of one usable handler, whose entry no other can stand in for, no accepted block is skipped if and only if its filter is faithful |
| Coverage.BlockAccepted | packages/node/src/utils/near.ts:268-290 | a block handler accepts exactly the multiples of its modulus, and every height without one |
| Coverage.BlockHandlerExact | packages/node/src/indexer/fetch.service.ts:269-286 | from any given height on, no block a modulus handler accepts is skipped if and only if the query is empty or some static modulus divides its own |
| Coverage.DynamicBlockHandlerMissed | packages/node/src/indexer/fetch.service.ts:269-286 | a project with a dynamic block handler, a non-empty query, and an accepted block that is skipped |
| DictionaryLaws.OrderIrrelevant | packages/node/src/indexer/fetch.service.ts:140-238 | reordering the sources or their handlers changes neither fallback nor what the query selects |
| Pipeline.VisitedInBlock | packages/node/src/indexer/indexer.manager.ts:118-141 | the traversal visits only items of the block |
| Pipeline.DeliveredWasVisited | packages/node/src/indexer/indexer.manager.ts:144-182 | handlers get only visited items, under the item's own kind, for listed sources |
| Pipeline.TakenIsNotSkipped | packages/node/src/indexer/fetch.service.ts:135-239 | end to end, over every event order and for static and dynamic runtime sources: a handler call whose faithful filter takes the item never comes from a block that would have been skipped |
| Cron.GenerateTimestampReferences | packages/node/src/configure/SubqueryProject.ts:211-241 | succeeds exactly when every filter with a timestamp parses and the start block (1 by default) can be fetched; each then has its own fresh schedule before its first occurrence from that block's time; which error otherwise |
| Cron.CronSchedule.Next | packages/node/src/configure/SubqueryProject.ts:232-237 | the getter yields the next occurrence and advances the seeker |
| Cron.FilterBlockTimestamp | packages/node/src/utils/near.ts:292-314 | accepts exactly past the next occurrence; moves the seeker by one on acceptance and not at all on rejection |
| Cron.FilterBlock | packages/node/src/utils/near.ts:268-281 | the modulo test, stated as being a multiple, comes first and never moves the seeker; a timestamp without a schedule throws |
| Cron.CursorCounts | packages/node/src/utils/near.ts:292-314 | over any run the seeker has moved by exactly the number of accepted checks |
| Cron.ConsumedOnce | packages/node/src/utils/near.ts:292-314 | no occurrence is consumed twice |
| Cron.BoundaryExact | packages/node/src/utils/near.ts:297 | C(t) is the position that separates the occurrences before t from the others |
| Cron.RunTheorem | packages/node/src/utils/near.ts:292-314 | after n checks in time order the accepted blocks are the minimum of n and of C(tj) + (n - j) |
| Cron.FilterBlocks | packages/node/src/utils/near.ts:268-314 | over a run of blocks the heap filter accepts, and moves its seeker, as the timestamp checks of the blocks that pass the modulo test do |
| Cron.CheckedExact | packages/node/src/utils/near.ts:268-281 | the timestamps that reach the seeker are those of the blocks at a multiple of the modulus, each once and in order |
| Cron.BlockRunTheorem | packages/node/src/utils/near.ts:268-314 | the run theorem for `filterBlock` with a modulus |
| BatchFetch.PromiseAll | packages/node/src/utils/near.ts:465-483 | results by position whatever the settling order; rejects exactly when some promise does, with the rejection that settles first |
| BatchFetch.FetchBlocksArray | packages/node/src/utils/near.ts:461-485 | one result per height in request order, null exactly for the not-found error; any other error fails the batch, with the failure that settles first |
| BatchFetch.FetchBlocksBatches | packages/node/src/utils/near.ts:487-505 | null exactly at skipped heights, otherwise the block of that height assembled under any event order, for every settling order |
| BatchFetch.DispatcherFetch | packages/node/src/indexer/blockDispatcher/block-dispatcher.service.ts:57-62 | the available blocks of the requested heights, in increasing order when the heights are, or the failure of the batch |
| BatchFetch.FetchedInOrder | packages/node/src/indexer/blockDispatcher/block-dispatcher.service.ts:57-62 | when each found block is that of its height, the kept heights are exactly the available ones and stay strictly increasing |
| BatchFetch.NonNullPositions | packages/node/src/indexer/blockDispatcher/block-dispatcher.service.ts:59-61 | dropping nulls keeps every other element, once per position and in order |
| BatchFetch.NonNullHeights | packages/node/src/indexer/blockDispatcher/block-dispatcher.service.ts:59-61 | dropping nulls keeps exactly the heights that were available |
| BatchFetch.NonNullIncreasing | packages/node/src/indexer/blockDispatcher/block-dispatcher.service.ts:59-61 | dropping nulls keeps strictly increasing heights strictly increasing |
| Worker.CacheExact | packages/node/src/indexer/worker/worker.service.ts:58-98 | in every reachable state a height is cached exactly when a completed fetch of it is unprocessed (or it is unavailable), with what the chain has there |
| Worker.ThrowsExact | packages/node/src/indexer/worker/worker.service.ts:86-96 | how processing a height ends, from the run alone: thrown, unavailable, or indexed with the chain's block |
| Worker.HitExact | packages/node/src/indexer/worker/worker.service.ts:62 | a fetch finds the height cached exactly when it is available and a completed fetch of it is unprocessed; a null entry is never a hit |
| Worker.InFlightExact | packages/node/src/indexer/worker/worker.service.ts:60-80 | per height, the fetches that asked the node are those stored, those failed and those still waiting |
| Worker.RunsExact | packages/node/src/indexer/worker/worker.service.ts:58-119 | the runs are exactly the interleavings in which every answer or failure belongs to a question still waiting |
| Worker.WorkerRefines | packages/node/src/indexer/blockDispatcher/block-dispatcher.service.ts:26-28 | over every interleaving, the calls of `indexBlock` are those of the dispatcher on the heights that did not throw |
| Worker.DisciplinedRefines | packages/node/src/indexer/worker/worker.service.ts:58-119 | when each process follows a completed fetch since its last one, nothing throws and the worker indexes exactly what the dispatcher does |
| Worker.Conservation | packages/node/src/indexer/worker/worker.service.ts:71-98 | every completed store of an available height is live, was indexed, or replaced an entry |
| Worker.NumFetchedBlocksExact | packages/node/src/indexer/worker/worker.service.ts:121-123 | the count is the pending available heights plus all unavailable heights ever fetched |
| Worker.WorkerService.StartFetch | packages/node/src/indexer/worker/worker.service.ts:62-70 | after any run a fetch asks the node exactly when the height is not both available and fetched since its last process, so null entries are asked for again |
| Worker.WorkerService.StoreFetched | packages/node/src/indexer/worker/worker.service.ts:70-71 | the answer, null included, is stored over whatever is cached |
| Worker.WorkerService.FailFetch | packages/node/src/indexer/worker/worker.service.ts:78-80 | a failed fetch stores nothing |
| Worker.WorkerService.ProcessBlock | packages/node/src/indexer/worker/worker.service.ts:83-119 | after any run: throws when no completed fetch is left, answers null for an unavailable height, otherwise indexes the chain's block and deletes the entry; always clears the indexing flag |
| Worker.WorkerService.NumFetchedBlocks | packages/node/src/indexer/worker/worker.service.ts:121-123 | after any run, what is pending plus every unavailable height ever fetched |
| Worker.Serve | packages/node/src/indexer/worker/worker.service.ts:58-119 | the service object driven through any run is in the state that run leads to |
| Worker.ServeDisciplined | packages/node/src/indexer/worker/worker.service.ts:58-119 | under the fetch discipline the object has made exactly the dispatcher's calls, and caches exactly the pending and the unavailable heights |

## Left out

- Rejections of the node inside `wrapBlock`, and the RPC clients and error strings as such: every `api.chunk` and `api.txStatusReceipts` call answers; only block fetching can fail.
- The base classes of `@subql/node-core` (dispatcher queues, reorg logic, store cache, handler dispatch): not part of this model, so nothing is claimed about them.
- Module wiring, logging, the sandbox, worker threads, subcommands and meta endpoints.
- Manifest validation: filters are arbitrary property lists, so the theorems name the shapes they need (`IsObject`, `Usual`, `Faithful`).
- Parsing of cron strings, the seeker's internals, time units, and the one `Cron` instance shared by handlers: a schedule is a strictly increasing sequence of occurrences, `parse` is a parameter.
- GenerateTimestampReferences: handlers are prepared one after the other; which of several invalid expressions is reported depends in the source on the order in which fetches answer.
- The string form of the `uniqBy` key: the key is the structured value it prints.
- The dictionary service itself: that it indexes an item under the row the filters read (`TransactionRow`, `ReceiptRow`, `ActionRow`) and returns exactly the blocks with a matching row is the meaning given to an entry here.
- Action types outside the nine: `parseNearAction` throws on them and `wrapBlock` rejects; `ActionValue` has only the nine.
- Payload decoding (base64 and JSON of `Args`, BN values): payloads are opaque strings; `Args` is only a boxed or a plain string.
- Sharing between a transaction's raw actions and its wrapped actions: boxing `args` in place is visible through both in the source, only through the wrapped action here. No filter reads the raw ones.
- The block's author and chunk headers, and payload fields no filter reads (gas and deposit of a FunctionCall).
- Custom processors' own `dictionaryQuery` and `filterProcessor`: user code. The query a processor answers is an input of the handler, and a handler that has one is outside the soundness theorems.
- Matchers other than `equalTo`: no compiled entry uses one; `KeyMeaning` shows that equal keys carry the same conditions, matchers included.
- Numeric or nested values of transaction, receipt and action filters: the interfaces declare strings.
- `filterTransactions`, `filterReceipts`, `filterActions`: any-of over the modelled filters.
- Dynamic data sources created while a block is being indexed: the list is fixed during one compilation or one block.
- Errors thrown by handlers, which end the traversal early.
- The memory lock, the queue's concurrency limit, and overlapping `processBlock` calls with their effect on `_isIndexing`: a process step is atomic, which is how the dispatcher calls it.
- Delivered block items are identified by the block's header: the order of the arrays inside differs between schedules, which `ScheduleIndependence` does not hide for the other kinds.
- DictionarySound: asks for faithful filters, and for a static source in the case of block handlers, because the code can miss blocks otherwise; `CoverageExact` gives the exact condition for any filter.
- RunTheorem: asks for timestamps in time order, as block timestamps are; `CursorCounts` and `ConsumedOnce` hold for any timestamps.
- DeliveryCounts: asks for distinct outcome ids and receipt ids within the block, as the chain guarantees; `DeliveryCountsExact` has no premise.
