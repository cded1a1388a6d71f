# Insurance chat agent: a Dafny model

This project models the core of an insurance-sales chat agent built on a
tool-calling language model. A user turn passes through an input guardrail,
an optional query rewrite, the agent (which picks tools), the tool node and
an output guardrail. Tools are found through an embedding index of "tool
cards", kept in a hot-reloadable registry, and answer from fixed product,
premium, coverage, underwriting and claims tables. Terms documents are split
into chunks and retrieved for RAG.

The model is in Dafny, one module per source file. Pure logic becomes
functions with lemmas; objects whose methods update fields become classes
with `modifies` clauses; loops become methods with invariants proved
against specification functions. Regular expressions, the language model,
embeddings, the vector store's similarity query, hashing and tool
invocation are parameters (oracles) of the functions that use them.

## Model

| member | source | states |
|---|---|---|
| ToolCards.NewCard | app/tool_search/tool_cards.py:27-45 | a card built from name and purpose has empty example, negative and tag tuples, and its embedding text is exactly the purpose |
| ToolCards.EmbedParts | app/tool_search/tool_cards.py:47-60 | the embedding lines are the purpose, then every positive example in order, then one line of space-joined tags only when tags exist |
| ToolCards.EmbedTextIgnoresNegatives | app/tool_search/tool_cards.py:47-60 | changing the negative examples never changes the embedding text |
| ToolCards.EmbedTextLines | app/tool_search/tool_cards.py:47-60 | when no field holds a newline, splitting the embedding text on newlines gives back exactly its lines |
| ToolCards.Put | app/tool_search/tool_cards.py:868 | storing a card keeps every registry key mapped to a card of that name |
| ToolCards.BuildRegistry | app/tool_search/tool_cards.py:868 | the registry's keys are exactly the card names, and each name maps to the last card that carries it |
| ToolCards.RegistryOfDistinctCards | app/tool_search/tool_cards.py:868 | with distinct names every card is found under its own name |
| ToolCards.GetCard | app/tool_search/tool_cards.py:871-873 | None exactly when the name has no card; otherwise the card of that name |
| ToolCards.AllCards | app/tool_search/tool_cards.py:876-878 | every registered card appears once, and nothing else appears |
| ToolCards.MissingCards | app/tool_search/tool_cards.py:881-884 | exactly the asked-for names that have no card, in input order (the order-keeping filter of the names) |
| Registry.InjectWhenNotToUse | app/tools/__init__.py:35-51 | the tool is returned unchanged exactly when it has no card or no negative examples; otherwise its right-stripped description gets the header and one "· " line per negative example |
| Registry.Runs | app/tools/__init__.py:122-127 | every callback is called once, in registration order, with the current version, whether or not an earlier one raised |
| Registry.PutAllNamesMatch | app/tools/__init__.py:96-103 | a batch registration keeps every name mapped to a tool of that name |
| Registry.PutAllKeepsOthers | app/tools/__init__.py:96-103 | a name the batch does not mention keeps its old tool |
| Registry.PutAllLastWins | app/tools/__init__.py:96-103 | a batched name holds the enriched last tool with that name |
| Registry.ToolRegistry.constructor | app/tools/__init__.py:62-66 | a new registry is empty at version 0 with no callbacks |
| Registry.ToolRegistry.GetAll | app/tools/__init__.py:70-72 | the snapshot lists every stored tool once, in insertion order |
| Registry.ToolRegistry.GetByName | app/tools/__init__.py:74-76 | None exactly when the name is absent; otherwise the stored tool |
| Registry.ToolRegistry.OnChange | app/tools/__init__.py:118-120 | appends the callback and changes nothing else |
| Registry.ToolRegistry.FireOnChange | app/tools/__init__.py:122-127 | the run log grows by exactly one call per callback, in order |
| Registry.ToolRegistry.Register | app/tools/__init__.py:87-94 | stores the enriched tool under its name, raises the version by one and fires every callback once |
| Registry.ToolRegistry.RegisterMany | app/tools/__init__.py:96-103 | stores the whole batch, raises the version by exactly one and fires the callbacks once, even for an empty batch |
| Registry.ToolRegistry.Unregister | app/tools/__init__.py:105-114 | returns whether the name was present; only then are the tool removed, the version raised and the callbacks fired |
| Registry.ToolRegistry.LoadFromModules | app/tools/__init__.py:131-136 | registers the modules' tool lists, concatenated in module order, as one batch: one version bump, the callbacks kept and each run once |
| ToolIndex.ToolDocuments | app/tool_search/embedder.py:48-67 | without a card one document holds the description; with a card, the purpose, one document per example, then a tag document only when tags exist |
| ToolIndex.ToolDocumentIds | app/tool_search/embedder.py:48-67 | the document ids of a tool are pairwise distinct, start with "tool_" and belong to that tool |
| ToolIndex.HashIgnoresOrder | app/tool_search/embedder.py:70-79 | the hashed text, so the hash, is the same for any ordering of the same tools |
| ToolIndex.SortedUnique | app/tool_search/embedder.py:77 | two name-sorted tool lists with the same contents and distinct names are equal |
| ToolIndex.SortByNameSorted | app/tool_search/embedder.py:77 | the sort orders tools by name |
| ToolIndex.UpsertAll | app/tool_search/embedder.py:141 | an upsert adds exactly the new ids and leaves every other document alone |
| ToolIndex.UpsertAllStores | app/tool_search/embedder.py:141 | a document not overwritten later in the batch is what the store holds |
| ToolIndex.ReindexOutcome | app/tool_search/embedder.py:138-158 | after a re-index the stored tool ids are exactly the new ids, the marker holds the new hash, no new id is deleted, and other documents are untouched |
| ToolIndex.IndexEntriesAreToolIds | app/tool_search/embedder.py:127-136 | every document a re-index writes has a "tool_" id |
| ToolIndex.CollectEntries | app/tool_search/embedder.py:127-136 | the gathering loop produces every tool's documents, tool after tool, each tagged with its tool |
| ToolIndex.ToolEmbeddingSearch.constructor | app/tool_search/embedder.py:83-93 | a new tool index has an empty collection, has written nothing, and keeps the configured top-k |
| ToolIndex.ToolEmbeddingSearch.IndexTools | app/tool_search/embedder.py:95-162 | an empty list or an unchanged hash writes nothing; otherwise upsert, then delete of exactly the stale ids (only if any), then the version marker |
| ToolIndex.ToolEmbeddingSearch.RemoveTool | app/tool_search/embedder.py:164-173 | deletes exactly the documents whose id is the tool's id or starts with it plus "__", and writes nothing when there are none |
| ToolIndex.RemoveCoversIndexedDocs | app/tool_search/embedder.py:164-173 | removing a tool removes every document indexing wrote for it |
| ToolIndex.RemoveIsExactOrPrefix | app/tool_search/embedder.py:169 | removing "product" keeps "tool_product_search" but removes "tool_product" and its "__" documents |
| ToolIndex.HitNamesMembers | app/tool_search/embedder.py:211-230 | a tool is a candidate exactly when one of the fetched documents belongs to it |
| ToolIndex.BestIsMax | app/tool_search/embedder.py:211-225 | a tool's score is its highest document score, or 0.0 when none is positive |
| ToolIndex.BestAbsent | app/tool_search/embedder.py:211 | a tool without documents scores the defaultdict's 0.0 |
| ToolIndex.RankToolsScores | app/tool_search/embedder.py:227-232 | the answer has min(k, tools hit) entries, each a hit tool with its best score |
| ToolIndex.RankToolsOrdered | app/tool_search/embedder.py:227-232 | the answer is sorted by descending score and names no tool twice |
| ToolIndex.RankToolsTopK | app/tool_search/embedder.py:227-232 | a hit tool left out scores no higher than any returned tool |
| ToolIndex.ToolEmbeddingSearch.AggregateHits | app/tool_search/embedder.py:211-230 | the aggregation loop computes one candidate per tool with its best score and that document's text |
| ToolIndex.ToolEmbeddingSearch.Search | app/tool_search/embedder.py:176-232 | an empty collection answers nothing; otherwise min(k*5, count) documents are fetched and ranked, k falling back to the default when zero |
| CardStore.CardDictRoundTrip | app/tool_search/toolcard_store.py:29-46 | turning a card into its dict and back gives the same card |
| CardStore.DictCardRoundTrip | app/tool_search/toolcard_store.py:29-46 | a dict that carries all four fields survives the trip through a card |
| CardStore.DictToCard | app/tool_search/toolcard_store.py:39-46 | a field missing from the dict becomes empty on the card; the name is kept |
| CardStore.KeepRecent | app/tool_search/toolcard_store.py:168-169 | the history keeps only its newest 30 records, in order |
| CardStore.NextVersion | app/tool_search/toolcard_store.py:158 | the next version is 1 for an empty history and otherwise exceeds the newest one |
| CardStore.AppendKeepsConsecutive | app/tool_search/toolcard_store.py:158-169 | appending the next version and trimming keeps versions consecutive, at most 30, with the new record last |
| CardStore.VersionsRise | app/tool_search/toolcard_store.py:158 | in a history built this way each record's version is one more than the one before |
| CardStore.FindVersion | app/tool_search/toolcard_store.py:200 | the first record with the asked version, or None exactly when no record has it |
| CardStore.FindVersionInRange | app/tool_search/toolcard_store.py:199-202 | a rollback target is found exactly when it lies between the oldest and newest kept versions |
| CardStore.PromoteValid | app/tool_search/toolcard_store.py:153-173 | publishing or rolling back keeps an entry's history valid, publishes the data and clears the draft |
| CardStore.Diff | app/tool_search/toolcard_store.py:258-268 | reports exactly the content fields whose values differ, each with old and new value |
| CardStore.DiffEmptyIff | app/tool_search/toolcard_store.py:258-268 | no change is reported exactly when the four content fields agree; the name is ignored |
| CardStore.DiffSymmetric | app/tool_search/toolcard_store.py:258-268 | swapping the cards reports the same fields with old and new swapped |
| CardStore.ResetAsWritten | app/tool_search/toolcard_store.py:243-256 | the "code" card read by the reset is whatever is live, and the live registry stays as it was |
| CardStore.ResetAfterPublishKeepsOverride | app/tool_search/toolcard_store.py:176-256 | after a publish, the reset hands back the override and leaves it live, never the differing code card |
| CardStore.ResetAsWrittenExample | app/tool_search/toolcard_store.py:243-256 | code purpose "A", published purpose "B": the reset returns the "B" card |
| CardStore.Restored | app/tool_search/toolcard_store.py:243-256 | the code card, when there is one, is returned and put back live; otherwise nothing live changes |
| CardStore.ResetAfterPublishRestoresCode | app/tool_search/toolcard_store.py:243-256 | publish then reset brings back the code card whatever was published |
| CardStore.ToolCardStore.constructor | app/tool_search/toolcard_store.py:52-61 | a store without an override file has no entries and the live registry as defined in code |
| CardStore.ToolCardStore.GetPublished | app/tool_search/toolcard_store.py:89-95 | the published override as a card, None when there is none; it equals the live card |
| CardStore.ToolCardStore.GetDraft | app/tool_search/toolcard_store.py:97-100 | the draft, or None for an unknown tool |
| CardStore.ToolCardStore.GetHistory | app/tool_search/toolcard_store.py:102-105 | the history, empty for an unknown tool, consecutive and at most 30 long |
| CardStore.ToolCardStore.GetEffectiveCard | app/tool_search/toolcard_store.py:107-110 | the published override when there is one, otherwise the card defined in code, read from an unaliased snapshot of the code registry (the corrected reading of the reset finding below) |
| CardStore.ToolCardStore.ListOverrides | app/tool_search/toolcard_store.py:112-115 | every tool with an entry, once each |
| CardStore.ToolCardStore.GetStatus | app/tool_search/toolcard_store.py:117-131 | source is override when a card is published, else code when the code registry (an unaliased snapshot, the corrected reading of the reset finding below) has the tool, else none; the draft flag; history count = length of the history (0 with no entry) and ≤ 30; version 0 exactly when there is no history, else the newest version |
| CardStore.ToolCardStore.SaveDraft | app/tool_search/toolcard_store.py:135-144 | the data renamed to the tool becomes its draft, creating an empty entry if needed, and nothing live changes |
| CardStore.ToolCardStore.Publish | app/tool_search/toolcard_store.py:146-185 | fails exactly when there is no draft, changing nothing; otherwise publishes the draft as the next version, trims history, clears the draft, updates the live card and notifies |
| CardStore.ToolCardStore.PublishDirect | app/tool_search/toolcard_store.py:187-190 | the whole new state: the renamed data is promoted in the tool's entry (an empty entry when there was none, appended to the names) at the next version with the publish note, every other entry unchanged, the live registry gets the card, the callback is told once, and no draft is left |
| CardStore.ToolCardStore.PromoteLive | app/tool_search/toolcard_store.py:157-183 | the entry gains the data as its published card at the next version with the draft cleared, every other entry is unchanged, the live registry holds the new card and the callback is told of it |
| CardStore.ToolCardStore.Rollback | app/tool_search/toolcard_store.py:192-233 | fails exactly when the tool has no entry or the version is not kept; otherwise republishes that version's data as a new version |
| CardStore.ToolCardStore.DiscardDraft | app/tool_search/toolcard_store.py:235-241 | clears the draft of a known tool and changes nothing else |
| CardStore.ToolCardStore.ResetToCode | app/tool_search/toolcard_store.py:243-256 | drops the entry, restores the code card live when one exists and notifies with it |
| Splitter.RFind | app/rag/splitter.py:160 | `str.rfind` of one character: -1 exactly when the character does not occur, otherwise the last index holding it |
| Splitter.CutPoint | app/rag/splitter.py:160-162 | a forced cut lies in 1..chunk_size, and a cut short of chunk_size is at a space past min_chunk_size |
| Splitter.ForceChunksFit | app/rag/splitter.py:155-167 | every chunk of the forced split is at most chunk_size long |
| Splitter.ForceChunksKeepText | app/rag/splitter.py:155-167 | the forced split loses no non-whitespace text: the chunks, concatenated, have the input's non-space characters in order |
| Splitter.ForceSplit | app/rag/splitter.py:155-167 | the `while` loop computes exactly the forced chunking, and so inherits its bound and text preservation |
| Splitter.NonBlank | app/rag/splitter.py:100 | the filter keeps only parts that are not blank, each taken from the input |
| Splitter.NonBlankKeepsText | app/rag/splitter.py:100 | dropping blank parts loses no non-whitespace text |
| Splitter.SplitRecursive | app/rag/splitter.py:92-114 | the segments are exactly those of the reference recursion `Segments` (a separator leaving at most one non-blank part falls through to the next one, otherwise the non-blank parts are handled in order); a text within chunk_size is returned as the only segment, past the last separator the forced chunks; every segment fits chunk_size; a non-empty text gives at least one segment; when the separators keep the text they split, the segments keep the text's non-space characters in order |
| Splitter.SegmentsFit | app/rag/splitter.py:92-114 | every reference segment fits chunk_size, a non-empty text gives at least one, and with text-keeping separators the segments keep the text's non-space characters in order |
| Splitter.SplitParts | app/rag/splitter.py:105-114 | the loop over parts yields exactly the reference segments of the parts, in order |
| Splitter.PartsSegmentsFit | app/rag/splitter.py:105-114 | the segments of the parts fit chunk_size, keep the text of all parts when the separators keep text, and are non-empty when the first part is not blank |
| Splitter.SplitPart | app/rag/splitter.py:107-113 | the pieces are exactly the reference segments of the part |
| Splitter.PartSegmentsFit | app/rag/splitter.py:107-113 | a part gives no pieces exactly when it is blank; the pieces fit chunk_size and keep the stripped part's text |
| Splitter.OverlapSuffix | app/rag/splitter.py:131-141 | the carried-over overlap is a suffix of the flushed chunk's segments and fits the overlap budget |
| Splitter.OverlapMaximal | app/rag/splitter.py:134-136 | the overlap stops only when the next earlier segment would overflow the budget |
| Splitter.NoOverlap | app/rag/splitter.py:131-141 | with chunk_overlap 0 nothing is carried over |
| Splitter.KeptOverlap | app/rag/splitter.py:131-137 | the backwards walk over the flushed segments keeps exactly the overlap the specification function gives, whose suffix and maximality properties are proved above |
| Splitter.JoinedLenExact | app/rag/splitter.py:141 | the recomputed current_len is exactly the length of the segments joined with single spaces |
| Splitter.MergeAsWrittenExample | app/rag/splitter.py:126-144 | with the joiner computed before the flush, current_len overcounts by one after a flush, so "bbbbb" and "cccc" (joined length 10 = chunk_size) are not merged; the corrected merge joins them |
| Splitter.AdvanceFlushIff | app/rag/splitter.py:126-144 | one step flushes exactly when the current chunk is non-empty and adding the segment with its space would pass chunk_size; a flush emits the joined current chunk, otherwise the segment is appended |
| Splitter.MergeBounded | app/rag/splitter.py:116-153 | for segments within chunk_size, every chunk but the last is at most chunk_size + chunk_overlap, and the last at most that plus min_chunk_size |
| Splitter.MergeKeepsText | app/rag/splitter.py:116-153 | without overlap, merging loses and duplicates no non-whitespace text |
| Splitter.MergeNonEmpty | app/rag/splitter.py:116-119 | the merge is empty exactly when there are no segments |
| Splitter.MergeSegments | app/rag/splitter.py:116-153 | the loop with its overlap and min_chunk_size tail computes the corrected merge |
| Splitter.Split | app/rag/splitter.py:80-88 | blank text gives no chunks; text within chunk_size after stripping is one chunk; a longer text gives the merge of the reference segments of the stripped text, merged by the corrected `Merge` (the one-separator fix of the merge finding below, not the merge as written at app/rag/splitter.py:127-144); every chunk is within chunk_size + chunk_overlap + min_chunk_size; without overlap the chunks keep the text |
| Splitter.MergeOfSegments | app/rag/splitter.py:87-88 | merging recursive segments keeps non-emptiness, the chunk bound and the text |
| Retriever.Round4 | app/rag/retriever.py:118 | rounding to four decimals moves a score by at most half a unit in the fourth place |
| Retriever.Round4OnGrid | app/rag/retriever.py:118 | a value already on the 0.0001 grid is left unchanged by rounding |
| Retriever.Round4Mono | app/rag/retriever.py:118 | rounding to four decimals never reverses the order of two values |
| Retriever.Round4Unit | app/rag/retriever.py:118 | a value between 0 and 1 stays between 0 and 1 once rounded |
| Retriever.RowScore | app/rag/retriever.py:113-120 | a hit carries the result's id and a score within rounding of 1 - distance, and 0 when the store returns no distances |
| Retriever.ChunkIdInjective | app/rag/retriever.py:67 | two chunk ids of one prefix are equal only for the same chunk index |
| Retriever.ChunkMetas | app/rag/retriever.py:55-56 | one metadata per chunk, each carrying doc_id = prefix; without caller metadata each is {source, doc_id} = prefix |
| Retriever.Cleaned | app/rag/retriever.py:58-63 | the stale-chunk delete removes exactly the documents whose doc_id is the prefix and leaves the rest unchanged |
| Retriever.AddChunksStores | app/rag/retriever.py:67-68 | after the add, chunk i is stored under `<prefix>_chunk_<i>` with its text and metadata unless that id was already held, no other id appears, and every document held before is unchanged |
| Retriever.IngestReplaces | app/rag/retriever.py:51-70 | after re-ingesting a prefix, the documents with that doc_id are exactly the new chunks whose ids were free after the clean-up, and every unrelated document survives unchanged |
| Retriever.RAGRetriever.constructor | app/rag/retriever.py:22-31 | a new retriever has an empty collection and the configured top-k |
| Retriever.RAGRetriever.DocCount | app/rag/retriever.py:33-35 | the count is zero exactly when the collection is empty |
| Retriever.RAGRetriever.IngestTexts | app/rag/retriever.py:37-70 | no chunks: returns 0 and changes nothing; otherwise the collection is first stale-cleaned (or left as it was when the lookup fails); a metadata list that is neither empty nor one per chunk then raises, and otherwise the new chunks are added and their count returned |
| Retriever.RAGRetriever.Retrieve | app/rag/retriever.py:72-122 | an empty collection gives no hits; otherwise it queries for min(k, count) results, k falling back to the default, and returns one row per result in order |
| Retriever.Offsets | app/rag/retriever.py:253-257 | one offset per page: the page's number and the sum of the earlier pages' lengths plus 2 each |
| Retriever.OffsetsLocatePages | app/rag/retriever.py:253-257 | the offset of page i is where that page's text sits in the pages joined with blank lines |
| Retriever.OffsetsAscending | app/rag/retriever.py:253-257 | for pages numbered in ascending order, offsets and page numbers both rise |
| Retriever.PageOffsets | app/rag/retriever.py:253-257 | the loop computes exactly the offset table |
| Retriever.PageOf | app/rag/retriever.py:259-263 | the page found is 1 or the number of some page that starts at or before the position |
| Retriever.PageOfLast | app/rag/retriever.py:259-263 | the page found is that of the last page starting at or before the position |
| Retriever.PageOfMonotone | app/rag/retriever.py:259-263 | on an ascending offset table, a later position never maps to an earlier page |
| Retriever.PageOfBounded | app/rag/retriever.py:259-263 | the page found never exceeds the largest page number |
| Retriever.PageAt | app/rag/retriever.py:259-263 | the backward loop computes the page lookup |
| Retriever.ScanIncreasing | app/rag/retriever.py:274-281 | the chunk positions found by the forward search start at the search origin and strictly increase |
| Retriever.BaseMeta | app/rag/retriever.py:265-271 | the common metadata holds source, doc_version and effective_date when given (non-empty), overridden by and including every extra key, and nothing else |
| Retriever.AttributePages | app/rag/retriever.py:273-281 | each chunk's metadata is the base plus the page at the chunk's found position |
| Retriever.AssignPageMetadata | app/rag/retriever.py:239-283 | one metadata per chunk: the common metadata with the page of that chunk's position |
| Retriever.ChunkPagesNonDecreasing | app/rag/retriever.py:239-283 | for pages in ascending order, later chunks are never assigned an earlier page |
| RagTools.IsTermsSourceIff | app/tools/rag_tools.py:34-35 | a source is a terms document exactly when its lower-cased name contains "별표" or "표준약관" |
| RagTools.IsCatalogQueryIff | app/tools/rag_tools.py:38-39 | a query is a catalog query exactly when it contains two distinct catalog keywords |
| RagTools.Keep | app/tools/rag_tools.py:55 | exactly the hits whose source is (or is not) a terms document are kept, and never more hits than given |
| RagTools.KeepInOrder | app/tools/rag_tools.py:55 | the kept hits are the order-keeping filter of the hits whose source is (or is not) a terms document: exactly those hits, in order, repeats kept |
| RagTools.Take | app/tools/rag_tools.py:56 | the slice is the first min(n, length) items |
| RagTools.Answer | app/tools/rag_tools.py:58-62 | the answer lists each document's text, score and metadata in order, its total is their count and it echoes the query used |
| RagTools.TermsQueryEngine | app/tools/rag_tools.py:45-62 | the query used is the product-scoped query, and at most five documents are returned |
| RagTools.TermsOnly | app/tools/rag_tools.py:45-62 | the terms engine returns the first five of the 15 retrieved hits that come from terms documents, each one a retrieved hit |
| RagTools.Ids | app/tools/rag_tools.py:102 | the seen-id set is exactly the ids of the priority hits |
| RagTools.Unseen | app/tools/rag_tools.py:103-106 | the appended hits are general hits whose id was not seen |
| RagTools.UnseenDistinct | app/tools/rag_tools.py:102-106 | no two appended hits share an id |
| RagTools.UnseenComplete | app/tools/rag_tools.py:102-106 | every general hit with an unseen id has its id represented among the appended hits |
| RagTools.TwoPassShape | app/tools/rag_tools.py:98-107 | at most eight hits: the priority hits first, then distinct-id, non-terms general hits whose ids are not among the priority ones |
| RagTools.CatalogTwoPassSearch | app/tools/rag_tools.py:98-107 | the loop computes the two-pass merge of the company-info search (5) and the general search (10) |
| RagTools.ProductInfoQueryEngine | app/tools/rag_tools.py:65-95 | the query is scoped by product code, boosted for catalog queries, or left alone; a catalog query without a product code uses the two-pass search, anything else the first five non-terms hits of a 15-hit search filtered by product code when one is given |
| RagTools.ProductInfoBounds | app/tools/rag_tools.py:87-89 | the non-catalog path returns at most five documents, none from a terms source |
| EvalRecall.TopScore | scripts/eval_tool_recall.py:194-196 | the top score is the first candidate's score, or 0.0 with no candidates |
| EvalRecall.FirstRank | scripts/eval_tool_recall.py:221-225 | no rank exactly when the name is not among the candidates; otherwise the 1-based position of its first occurrence |
| EvalRecall.HitRank | scripts/eval_tool_recall.py:221-227 | a no-call case has no rank; otherwise the rank is the first 1-based position of the expected tool, absent exactly when the tool was not retrieved |
| EvalRecall.Names | scripts/eval_tool_recall.py:218 | the ranked names are the candidates' names in order |
| EvalRecall.Scores | scripts/eval_tool_recall.py:219 | the scores are the candidates' scores in order |
| EvalRecall.RunSearch | scripts/eval_tool_recall.py:215-234 | one result per test case, in order, each the evaluation of that case's top-k search |
| EvalRecall.ReciprocalRank | scripts/eval_tool_recall.py:199-200 | the reciprocal rank lies in [0, 1], is 1 at rank 1, positive exactly when there is a rank, and at most 1/2 below rank 1 |
| EvalRecall.ToolCallsInOrder | scripts/eval_tool_recall.py:239 | the tool-call results are the order-keeping filter of the results that expect a tool: every such result, in order |
| EvalRecall.NoCallsInOrder | scripts/eval_tool_recall.py:240 | the no-call results are the order-keeping filter of the results that expect no tool: every such result, in order |
| EvalRecall.PartitionSizes | scripts/eval_tool_recall.py:239-244 | the two groups together have as many results as the whole |
| EvalRecall.CountsOrdered | scripts/eval_tool_recall.py:246-248 | hits at rank 1 ≤ recalled ≤ tool-call total, and the reciprocal-rank sum lies between hit@1 and recall counts |
| EvalRecall.CountBelowBound | scripts/eval_tool_recall.py:250 | the correct no-call count never exceeds the no-call total |
| EvalRecall.RatioMono | scripts/eval_tool_recall.py:252-255 | a guarded ratio grows with its numerator |
| EvalRecall.RatioUnit | scripts/eval_tool_recall.py:252-255 | a guarded ratio of a count within its total lies in [0, 1] |
| EvalRecall.ComputeMetrics | scripts/eval_tool_recall.py:237-270 | the totals are the sizes of the tool-call and no-call groups; hit1 counts rank-1 hits and recall the ranked hits among tool calls; correct no-calls are those whose top score is below the threshold; tool accuracy, recall@k, MRR, no-call accuracy and overall accuracy are those counts (and the reciprocal-rank sum) over their totals, 0.0 for an empty group; and tool accuracy ≤ MRR ≤ recall@k, all in [0, 1] |
| EvalRecall.MetricsOf | scripts/eval_tool_recall.py:242-257 | the counts and guarded ratios of given tool-call and no-call groups, consistent as the report promises |
| PdfMeta.ParsePdfMeta | scripts/init_vectordb.py:20-31 | a parsed name yields a well-formed B-code (6 to 9 digits) and a digit revision, and the name starts with `<code>_<revision>_` |
| PdfMeta.ParseComplete | scripts/init_vectordb.py:20-31 | every well-formed code and revision is recovered from any name that starts with `<code>_<revision>_`, whatever follows |
| PdfMeta.ParseExample | scripts/init_vectordb.py:19-31 | `B00329010_0_S.pdf` gives product code B00329010 and revision 0 |
| PdfMeta.ShortCodeRejected | scripts/init_vectordb.py:20-27 | a code with only five digits does not match and gives no metadata |
| Models.ParseChatRequest | app/models.py:10-26 | an unknown field or a missing query is rejected; an accepted request satisfies the query length (1-5000) and thread id rules (1-128 word characters, `-`, `:`, `.`), keeps the query, and takes the session id or a fresh one and the thread id or "default" |
| Models.RequestRoundTrip | app/models.py:10-26 | every valid request, written as a body, parses back to itself |
| Models.QueryOnlyAccepted | app/models.py:13-26 | a body holding only a query of 1-5000 characters is accepted with the fresh session id and the default thread |
| Models.ParseTraceEntry | app/models.py:29-43 | a missing node, a negative duration or a negative tools_bound is rejected; an accepted entry is valid, keeps the node and takes the duration or 0 |
| Models.TraceRoundTrip | app/models.py:29-43 | every valid trace entry, with any extra fields, parses back to itself |
| Models.TraceIgnoresExtra | app/models.py:36 | extra fields never change the outcome of parsing |
| McpServer.FirstConcrete | app/mcp_server/server.py:72-76 | the first anyOf alternative with a non-null type, absent exactly when none has one |
| McpServer.ResolveJsonType | app/mcp_server/server.py:64-77 | an explicit type wins; otherwise the first non-null anyOf type; otherwise "string" |
| McpServer.PyTypeOf | app/mcp_server/server.py:30-38 | a JSON type maps through the type table, and an unknown one to str |
| McpServer.FallbackDefault | app/mcp_server/server.py:97 | an optional parameter without a default gets "" for str, False for bool, 0 for int and float, and [] otherwise |
| McpServer.ParamKinds | app/mcp_server/server.py:92-100 | required parameters have no default and optional ones always have one |
| McpServer.RequiredFirst | app/mcp_server/server.py:102 | in the signature no parameter without a default follows one with a default |
| McpServer.SignatureCovers | app/mcp_server/server.py:86-102 | every property becomes exactly one parameter, required exactly when its name is in the required set |
| McpServer.AnnotationsCover | app/mcp_server/server.py:84-90 | the annotations hold "return" and one entry per property, the last-listed property's resolved type winning |
| McpServer.AddProperty | app/mcp_server/server.py:88-100 | one loop step appends the property's parameter to the required or the optional list and records its annotation |
| McpServer.BuildSignature | app/mcp_server/server.py:80-102 | the loop builds the required-then-optional signature and the annotation map |
| McpServer.Handle | app/mcp_server/server.py:105-112 | an exception becomes a JSON object with its message under "error"; a string result is returned as is; any other result is JSON-encoded |
| McpServer.Server.constructor | app/mcp_server/server.py:54-58 | a new server has no tools |
| McpServer.Server.AddTool | app/mcp_server/server.py:126 | registering appends the tool and keeps the earlier ones |
| McpServer.Runtime.constructor | app/mcp_server/server.py:42 | the process starts with no server and not initialised |
| McpServer.Runtime.GetMcp | app/mcp_server/server.py:45-59 | the first call creates an empty server and later calls return that same one |
| McpServer.Runtime.InitMcp | app/mcp_server/server.py:178-199 | the first call registers every tool then the pipeline tool on the singleton; later calls return it unchanged |
| Tables.KnownCodes | app/tools/product.py:86-87 | the order-keeping filter of the listed codes that name a product: exactly those codes, in input order, repeats kept |
| Tables.CodeList | app/tools/premium.py:105 | commas count as spaces: the resulting codes are non-empty and hold neither commas nor blanks |
| Tables.CodeListAppend | app/tools/premium.py:105 | when the seam of `x + y` is at a comma or a blank, the codes are those of `x` followed by those of `y` |
| Tables.CodeListOfSeps | app/tools/premium.py:105 | a text made only of commas and blanks holds no code |
| Tables.CodeListOfCode | app/tools/premium.py:105 | a non-empty text without commas or blanks is exactly one code; with the two lemmas above this fixes the list for every input |
| Tables.CodeListPair | app/tools/premium.py:105 | two codes around any non-empty run of commas and blanks come back as those two codes, in order |
| Tables.CodeListExample | app/tools/premium.py:105 | "B1, B2" gives the two codes B1 and B2 |
| Underwriting.AgeIssues | app/tools/underwriting.py:75-78 | an age knockout is reported exactly when the age is below the minimum or above the maximum (defaults 0 and 999); quoting a missing limit raises |
| Underwriting.FlagNotesMember | app/tools/underwriting.py:81-84 | a note is listed exactly when some flag of the product's groups fires on the history and has the asked knockout kind |
| Underwriting.FlagNotesSplit | app/tools/underwriting.py:82-84 | every firing flag lands in exactly one of the two lists |
| Underwriting.ClassifyFlags | app/tools/underwriting.py:82-84 | the loop's knockouts and caveats are the notes of the firing knockout and non-knockout flags, in flag order |
| Underwriting.SimplifiedIssue | app/tools/underwriting.py:85-89 | at most one extra knockout, present exactly for a simplified product with simplified-common rules and a cancer, admission or surgery mention |
| Underwriting.PrecheckSpec | app/tools/underwriting.py:65-97 | the guard answers first; an unknown product gives its message; eligible exactly when no knockout; expert review exactly when there are caveats or a clean non-empty history |
| Underwriting.Precheck | app/tools/underwriting.py:65-97 | the imperative precheck computes exactly the specified verdict |
| Underwriting.PrecheckAgeOutOfRange | app/tools/underwriting.py:75-90 | an age outside the product's stated range makes the applicant ineligible |
| Underwriting.PrecheckFlagFires | app/tools/underwriting.py:79-91 | a firing knockout flag makes the applicant ineligible with its note listed; a firing caveat flag asks for expert review |
| Underwriting.PrecheckClean | app/tools/underwriting.py:74-91 | in range with no firing flag and no trigger word: eligible, no caveats, and review exactly when a history was given |
| Underwriting.QuestionsFor | app/tools/underwriting.py:101-121 | unknown product is an error; a simplified product gets the 3 questions, any other the 4 general ones |
| Underwriting.KnockoutRules | app/tools/underwriting.py:125-133 | unknown product is an error; a simplified product gets the simplified-common rules followed by its own rules, any other product exactly its own rules |
| Underwriting.DocsRequired | app/tools/underwriting.py:137-150 | the two base documents, the simplified or the standard health form (one of them), and the exam exactly when the case type mentions 추가 |
| Underwriting.WaitingPeriods | app/tools/underwriting.py:154-160 | found exactly when the product has a non-empty period table, which is returned as stored |
| Underwriting.Exclusions | app/tools/underwriting.py:164-169 | the common and product exclusion lists as stored, empty when absent |
| Underwriting.Seventy | app/tools/underwriting.py:180 | int(x * 0.7): seventy percent truncated toward zero |
| Underwriting.Limitations | app/tools/underwriting.py:173-182 | unknown product is an error; the maximum is cut to 70% exactly when the age is over 60 and a non-zero maximum is known; otherwise the stored limits |
| Underwriting.LimitationsShrink | app/tools/underwriting.py:179-180 | the cut never moves the maximum away from zero |
| Underwriting.ReinstatementRule | app/tools/underwriting.py:186-199 | a known product gets the four distinct reinstatement items; an unknown one an error |
| Underwriting.RenewalEligibility | app/tools/underwriting.py:203-217 | not renewable exactly when there is no non-zero maximum renewal age; otherwise eligible exactly when the current age is below it |
| Underwriting.RenewalMonotone | app/tools/underwriting.py:211 | anyone younger than an eligible age is eligible too |
| Underwriting.IncreaseTenths | app/tools/underwriting.py:228 | the increase, in tenths of a percent: 3.0 below 30, plus 0.5 per year from 30 |
| Underwriting.RenewalPremiumNotice | app/tools/underwriting.py:221-233 | a range is given exactly for 갱신형 products; it starts at the increase (at least 3%) and ends 5 points higher |
| Underwriting.IncreaseMonotone | app/tools/underwriting.py:228 | the estimated increase never falls with age |
| Underwriting.RenewalNoticeExample | app/tools/underwriting.py:228 | at age 41 the increase reads "8.5" |
| Underwriting.FirstCategory | app/tools/underwriting.py:240-242 | the first category with a job matching in either direction, or None exactly when none matches |
| Underwriting.HighRiskJobCheck | app/tools/underwriting.py:237-244 | the first matching category, used for category and restriction alike; 일반 / 없음 when no category matches |
| Underwriting.RiskLevel | app/tools/underwriting.py:258 | 낮음 below 3, 중간 from 3 to 5, 높음 from 6 |
| Underwriting.DisclosureRiskScore | app/tools/underwriting.py:248-263 | the loop's score and warnings are the weights and warnings of the terms found in the lower-cased history, and the level is that score's level |
| Underwriting.RiskScoreMono | app/tools/underwriting.py:253-257 | a history that mentions more of the terms never scores lower or warns less |
| Underwriting.RiskScoreWarnings | app/tools/underwriting.py:253-257 | score 0 exactly when there is no warning; the score lies between the number of warnings and five times it |
| Underwriting.CancerIsMedium | app/tools/underwriting.py:253-258 | any history mentioning 암 scores at least 5, so it is never 낮음 |
| Premium.Trunc | app/tools/premium.py:73 | int() on a real: the integer part, truncated toward zero |
| Premium.TruncMono | app/tools/premium.py:73 | truncation never reverses an order |
| Premium.CalcPremium | app/tools/premium.py:66-73 | at least 5000 and otherwise the truncated product of base, age factor, gender factor and amount factor |
| Premium.CalcPremiumMono | app/tools/premium.py:66-73 | with a non-negative scale, a larger amount factor never lowers the premium |
| Premium.QuoteFor | app/tools/premium.py:66-73 | no quote exactly when the product has no table; a missing age or gender raises; a quote is at least 5000 |
| Premium.PremiumEstimate | app/tools/premium.py:80-96 | the guard answers first, then an unknown product, then a missing table; otherwise the quote for the product at factor 1 |
| Premium.RowCodes | app/tools/premium.py:112-115 | the codes of the rows, in row order |
| Premium.CompareRowsSpec | app/tools/premium.py:105-116 | the rows are exactly the known codes in input order; a missing age or gender raises exactly when some known code has a table; every computed price is at least 5000 |
| Premium.PremiumCompare | app/tools/premium.py:100-116 | after the guard, the comparison of the comma- or space-separated code list |
| Premium.CompareCodes | app/tools/premium.py:106-115 | the loop builds exactly the specified rows |
| Premium.NoneStaysNone | app/tools/premium.py:107-115 | once a code raises, the whole comparison raises |
| Premium.TermsFor | app/tools/premium.py:134-135 | the payment terms of [10, 15, 20] that end by age 80, in that order |
| Premium.PlanOptionsFor | app/tools/premium.py:120-138 | the full-term option when a term is set, then for 비갱신형(종신) products the priced 10/15/20-year options; plan types as stored; raises exactly when pricing raises |
| Premium.TermOptionsNoneStays | app/tools/premium.py:134-137 | a term that raises makes the whole option list raise |
| Premium.TermOptionsShape | app/tools/premium.py:134-137 | one option per admissible term, in order, each priced at least 5000 when priced |
| Premium.TermsByAge | app/tools/premium.py:134-135 | every term up to age 60, none above 70 |
| Premium.AmountSuggest | app/tools/premium.py:142-158 | the category decides in the order 사망, 암/건강, 치아, default; death cover is 36 times the income but at least 3000 |
| Premium.AmountSuggestMono | app/tools/premium.py:149-150 | the death-cover suggestion grows with income and never drops below 3000 |
| Premium.Steps | app/tools/premium.py:174 | range(from, horizon, step): strictly increasing values in the half-open range, starting at from when it is non-empty |
| Premium.StepsAreMultiples | app/tools/premium.py:174 | the j-th value is from plus j steps |
| Premium.RenewalProjection | app/tools/premium.py:162-184 | after the guard and the product check, non-renewing products get a message; renewing ones project a price at each term step below the horizon; a zero term raises |
| Premium.ProjectLoop | app/tools/premium.py:174-178 | the loop builds exactly the specified projection rows |
| Premium.ProjectRowsNoneStays | app/tools/premium.py:174-178 | a step that raises makes the projection raise |
| Premium.ProjectRowsComplete | app/tools/premium.py:174-178 | with a table and a gender, every step yields a row at age plus offset priced at least 5000 |
| Premium.ProjectRowsNoTable | app/tools/premium.py:176-177 | without a table every step is skipped |
| Premium.AffordabilityCheck | app/tools/premium.py:188-203 | after the guard, no table is an error; fits exactly when the quote is within budget; a budget below 5000 never fits |
| Premium.AffordabilityMono | app/tools/premium.py:197 | a larger budget keeps a product affordable |
| Premium.PaymentCycles | app/tools/premium.py:207-212 | the stored cycles, or monthly only when none are stored |
| Premium.SurrenderValue | app/tools/premium.py:216-226 | the product's rules or the default, narrowed to the keys containing the plan type when any match; a missing default raises |
| Coverage.CoverageSummary | app/tools/coverage.py:66-73 | an error exactly when the product has no or empty coverage; otherwise that coverage as stored, with the product name or "" |
| Coverage.PutMatchingKeys | app/tools/coverage.py:87-89 | after the inner loop a key is present exactly when it was before or some kept entry of the section supplies it |
| Coverage.CollectKeys | app/tools/coverage.py:85-91 | a key is collected exactly when some section supplies it: a matching entry of a dict section, or (by name) a text section whose own name matches |
| Coverage.CollectedKeysMatch | app/tools/coverage.py:88-90 | every collected key contains the lower-cased search text |
| Coverage.CollectLoop | app/tools/coverage.py:84-91 | the nested loops build exactly the specified match dictionary |
| Coverage.CoverageDetail | app/tools/coverage.py:77-93 | no or empty coverage is an error; otherwise the matches by key or section name, or the whole coverage when nothing matches, with the product's waiting periods |
| Coverage.BenefitAmountLookup | app/tools/coverage.py:97-112 | no or empty coverage is an error; otherwise the matching text amounts, or a not-found answer when there are none |
| Coverage.AmountsAreText | app/tools/coverage.py:105-109 | every amount found is a text entry of a dict section whose key contains the benefit name |
| Coverage.BenefitLimitRules | app/tools/coverage.py:116-125 | the product's limits narrowed to keys containing the benefit name, or all of them when the name is empty or nothing matches |
| Coverage.EventEligibility | app/tools/coverage.py:129-145 | unknown product is an error; likely covered exactly when no excluded act is mentioned, with a condition exactly when not; one caveat per waiting period that applies |
| Coverage.EventCaveatsIgnoreFacts | app/tools/coverage.py:136-140 | the caveats depend on the product's periods only, never on the event facts |
| Coverage.DiagnosisDefinition | app/tools/coverage.py:149-155 | the definitions whose name contains the term, case-insensitively; not found exactly when there is none |
| Coverage.IcdMatches | app/tools/coverage.py:162 | the mappings whose upper-cased code contains, or is contained in, the query, in table order |
| Coverage.IcdMappingLookup | app/tools/coverage.py:159-165 | the matching mappings, not found exactly when there is none |
| Coverage.IcdExactFound | app/tools/coverage.py:161-162 | a code equal to a stored one up to case always finds that mapping |
| Coverage.MultiBenefitConflictRule | app/tools/coverage.py:169-181 | the crown-first priority is given exactly for the dental product B00197011 |
| Coverage.Suitable | app/tools/coverage.py:192-195 | the order-keeping filter of the riders by "some goal word occurs in the lower-cased name and description": every suiting rider, and only those, in order |
| Coverage.SuitableAll | app/tools/coverage.py:194 | an empty goal keeps every rider |
| Coverage.Bundle | app/tools/coverage.py:190-200 | at most three riders of the product: the first three suiting riders when any suits, otherwise the first two riders |
| Coverage.MatchRiders | app/tools/coverage.py:191-195 | the loop collects exactly the suiting riders, in their order |
| Coverage.RiderBundle | app/tools/coverage.py:185-202 | no riders is an error; otherwise the recommended bundle |
| Coverage.BundleNoGoal | app/tools/coverage.py:194-200 | without a goal the first three riders are recommended |
| ProductTools.HitsSpec | app/tools/product.py:56-63 | the hits are a sub-multiset of the products, and a product is a hit exactly when its searchable text contains the keyword or its category contains the category |
| ProductTools.ProductSearch | app/tools/product.py:52-66 | the loop returns the hits in table order, or every product when there is no hit |
| ProductTools.SearchWithoutQuery | app/tools/product.py:60-65 | with neither keyword nor category nothing is a hit, so the whole catalogue is listed |
| ProductTools.ProductGet | app/tools/product.py:70-80 | an exact code wins; otherwise the first product whose name contains the code case-insensitively; an error exactly when there is none |
| ProductTools.RowsOf | app/tools/product.py:90-97 | one comparison row per known code, in order |
| ProductTools.ProductCompare | app/tools/product.py:84-98 | an error exactly when fewer than two listed codes are known; otherwise the rows of the known codes in code-list order, repeats kept, each built from a listed product |
| ProductTools.LatestVersionCheck | app/tools/product.py:102-111 | unknown product is an error; a known one is always reported as the latest |
| ProductTools.OfKind | app/tools/product.py:120-121 | the riders of one kind, in order |
| ProductTools.RiderListing | app/tools/product.py:115-122 | no riders is an error; otherwise the mandatory riders and the optional riders, each in table order, and the total count |
| ProductTools.PartitionCounts | app/tools/product.py:120-122 | the two kinds never outnumber the riders, and add up to them when every rider has one of the two kinds |
| ProductTools.RidersWith | app/tools/product.py:130 | the riders whose lower-cased name and description contain the keyword, in table order |
| ProductTools.RiderSearch | app/tools/product.py:126-131 | the product's riders matching the lower-cased keyword, in table order; none for an unknown product |
| ProductTools.RiderGet | app/tools/product.py:135-142 | the first rider, in table order, whose code or name contains the query; not found exactly when none does; a match under a product missing from the catalogue raises |
| ProductTools.EligibilityByProductRule | app/tools/product.py:146-163 | unknown product is an error; the existing-customer rule appears exactly for B00115023 and the simplified rule exactly for simplified products |
| ProductTools.Faqs | app/tools/product.py:172-178 | the four FAQ topics, each answered once |
| ProductTools.ProductFaq | app/tools/product.py:167-181 | unknown product is an error; the FAQs narrowed to topics containing the query, or all four when it is empty or matches none |
| ProductTools.UpperAll | app/tools/product.py:194 | every channel upper-cased, in order |
| ProductTools.SalesChannelAvailability | app/tools/product.py:185-195 | unknown product is an error; availability is given exactly when a channel is asked, and is true exactly when a listed channel equals it ignoring case |
| CustomerDb.SafeCustomer | app/tools/customer_db.py:51-58 | id, name and age are kept and M/F become 남성/여성 |
| CustomerDb.SafeCustomerHidesPhone | app/tools/customer_db.py:51-58 | the phone number never reaches the view: changing it changes nothing |
| CustomerDb.SafeContract | app/tools/customer_db.py:61-77 | the status is translated, and each of the end, termination and renewal dates appears under its label exactly when it is non-empty |
| CustomerDb.FirstSelected | app/tools/customer_db.py:90-95 | the first customer with the id, or whose name matches the LIKE pattern `%name%`, or None exactly when there is none |
| CustomerDb.LikeRest | app/tools/customer_db.py:95 | a trailing `%` matches any text |
| CustomerDb.LikePrefix | app/tools/customer_db.py:95 | for a name without `%` or `_`, `s LIKE name%` holds exactly when `s` starts with the name, ignoring ASCII case |
| CustomerDb.LikeSomeSuffix | app/tools/customer_db.py:95 | a leading `%` matches exactly when some suffix of the text matches the rest of the pattern |
| CustomerDb.LikeAtMatch | app/tools/customer_db.py:95 | a wildcard-free name matches at a position exactly when it occurs there in the lower-cased text |
| CustomerDb.LikeLiteralInfix | app/tools/customer_db.py:95 | for a name without `%` or `_`, the LIKE search is a case-insensitive substring test |
| CustomerDb.ContractsOf | app/tools/customer_db.py:98-99 | the contracts whose customer id matches, exactly those and in stored order (the `WHERE customer_id = ?` filter) |
| CustomerDb.ByStartDesc | app/tools/customer_db.py:99 | `ORDER BY start_date DESC`: the result is a permutation of the input with every start date no earlier than the ones after it |
| CustomerDb.InsertByStartSorted | app/tools/customer_db.py:99 | inserting a contract into a newest-first list keeps it newest first |
| CustomerDb.ActiveByStart | app/tools/customer_db.py:102 | sorting by start date does not change the number of active contracts |
| CustomerDb.Active | app/tools/customer_db.py:102 | the contracts whose status is active, in their order |
| CustomerDb.SafeContracts | app/tools/customer_db.py:101 | one view per contract, in order |
| CustomerDb.ContractLookup | app/tools/customer_db.py:84-108 | an error exactly when neither id nor name is given or no customer is selected; otherwise the safe customer view, the safe views of exactly that customer's contracts sorted newest start date first, their number as the total, and the number in force, which never exceeds the total |
| CustomerDb.ActiveAll | app/tools/customer_db.py:102 | the active count equals the total exactly when every contract is active |
| CustomerDb.SameProduct | app/tools/customer_db.py:132 | the active contracts for the same product |
| CustomerDb.SameProductInOrder | app/tools/customer_db.py:132 | `same` is the held contracts of the product in holding order, repeats kept, so its length is the count in the message |
| CustomerDb.SameCategory | app/tools/customer_db.py:137-138 | the active contracts whose product category contains the category key |
| CustomerDb.SameCategoryInOrder | app/tools/customer_db.py:137-138 | `same_cat` is the held contracts in the category in holding order, repeats kept, so its length is the count in the message |
| CustomerDb.RuleNotes | app/tools/customer_db.py:130-149 | a count rule with an unparsable limit raises; each rule adds at most one blocker and one warning; only a same-category rule warns, and then never blocks |
| CustomerDb.RuleNotesWarns | app/tools/customer_db.py:136-143 | a same-category rule with a valid limit warns exactly when the number of active contracts in the category is at least one and below the limit |
| CustomerDb.RuleNotesBlocks | app/tools/customer_db.py:131-149 | a rule adds a blocker exactly when its count reaches the limit (default 1) or its prerequisite contract is not active |
| Util.ParseInt | app/tools/customer_db.py:133 | `int(rval)` succeeds exactly when the stripped text is non-empty decimal digits with at most one leading sign |
| Util.WordsOfBlank | app/tools/coverage.py:194 | `split()` of an all-whitespace text is empty |
| Util.WordsOfWord | app/tools/coverage.py:194 | `split()` of a non-empty text without whitespace is that text alone |
| Util.WordsAppend | app/tools/coverage.py:194 | when the seam of `x + y` is at whitespace, `split()` gives the words of `x` followed by those of `y`; with the two lemmas above this fixes the words of every text |
| Util.ParseIntToString | app/tools/customer_db.py:133 | a limit written as a decimal integer, negative ones included, is read back as that integer |
| CustomerDb.AllNotesSpec | app/tools/customer_db.py:129-149 | the rule loop raises exactly when some rule raises; otherwise it blocks exactly when some rule blocks |
| CustomerDb.RulesFor | app/tools/customer_db.py:123 | the rules of the asked product, in table order |
| CustomerDb.DuplicateCheckSpec | app/tools/customer_db.py:112-158 | an unknown customer or product is an error; otherwise eligible exactly when there is no blocker |
| CustomerDb.DuplicateEnrollmentCheck | app/tools/customer_db.py:112-158 | the imperative check computes exactly the specified decision |
| CustomerDb.EvaluateRules | app/tools/customer_db.py:129-149 | the rule loop gathers exactly the specified notes |
| CustomerDb.AllNotesNoneStays | app/tools/customer_db.py:129-149 | once a rule raises, the whole check raises |
| CustomerDb.AgeOutOfRangeBlocks | app/tools/customer_db.py:125-128 | a customer outside the product's age range is never eligible |
| CustomerDb.EligibleIffNoRuleBlocks | app/tools/customer_db.py:125-150 | for a customer within the age range, eligible exactly when none of the product's rules blocks |
| Compliance.RequiredDisclosure | app/tools/compliance.py:45-56 | unknown product is an error; otherwise the common and product disclosures as stored, with their total count |
| Compliance.FormatPlain | app/tools/compliance.py:86 | str.format leaves a template without braces unchanged |
| Compliance.FormatField | app/tools/compliance.py:86 | a named field present in the parameters is replaced by its value |
| Compliance.FormatUnknownField | app/tools/compliance.py:86-88 | a named field missing from the parameters raises KeyError |
| Compliance.TemplateKey | app/tools/compliance.py:69-83 | the topic picks the first matching template in the order 면책, 감액, 갱신, 해약/환급, 간편, each case stated both ways, and none when it mentions none of them |
| Compliance.TemplateParams | app/tools/compliance.py:67-79 | the parameters always carry the product name |
| Compliance.PhraseGenerator | app/tools/compliance.py:60-91 | unknown product is an error; without a template the fallback script; otherwise the formatted template, the raw template on a missing key, and a crash exactly on a malformed template |
| Compliance.IssuesSpec | app/tools/compliance.py:99-101 | a forbidden phrase is reported exactly when its lower-cased pattern occurs in the lower-cased text |
| Compliance.MisleadingCheck | app/tools/compliance.py:95-102 | the loop reports exactly the phrases found, counts them, and is ok exactly when none is found |
| Compliance.ComparisonDisclaimer | app/tools/compliance.py:106-117 | unknown product is an error; two disclaimers for a simplified product, one otherwise |
| Compliance.RecordingNotice | app/tools/compliance.py:121-135 | the TM or CM script by upper-cased channel, otherwise the stored template or the default notice |
| Compliance.RecordingNoticeIgnoresCase | app/tools/compliance.py:123-124 | "tm" gets the same script as "TM" |
| Compliance.Mask | app/tools/compliance.py:141-148 | at most one applied label per pattern |
| Compliance.MaskLabels | app/tools/compliance.py:141-148 | the masked text is the result of running every pattern's substitution in turn, and the applied labels are the labels of exactly those patterns whose substitution changed the text, in pattern order |
| Compliance.MaskUnchanged | app/tools/compliance.py:141-149 | when no label is applied the text is returned unchanged, and every applied label names a pattern |
| Compliance.PrivacyMasking | app/tools/compliance.py:139-149 | the loop computes exactly the specified masking and reports the original length |
| Claims.FillKeys | app/tools/claims.py:50-54 | after the loop a key is present exactly when it was before or some taken entry supplies it |
| Claims.FillLoop | app/tools/claims.py:50-54 | the loop builds exactly the specified dictionary |
| Claims.ClaimGuide | app/tools/claims.py:46-57 | a missing common guide raises; otherwise the common guide plus every guide whose name contains the claim type, with the note exactly when nothing else matched |
| Claims.GuideKeys | app/tools/claims.py:49-54 | the common guide is always present, and any other guide exactly when its name contains the claim type |
| Claims.NoteIffNothingElse | app/tools/claims.py:55-56 | the note is added exactly when no other guide name contains the claim type |
| Claims.ClaimRequiredForms | app/tools/claims.py:61-70 | the forms whose name contains the claim type, or the single help entry when none does; never empty |
| Claims.FormsMatch | app/tools/claims.py:65-67 | a form is listed exactly when its name contains the claim type |
| Claims.ContractManage | app/tools/claims.py:74-80 | the actions whose name contains the request, or all actions when none does |
| Claims.GroupTasks | app/tools/claims.py:88-115 | follow-up tasks of every keyword group that fires, in group order; none exactly when no group fires |
| Claims.GroupTasksCount | app/tools/claims.py:88-115 | their count is the sum of the firing groups' sizes |
| Claims.FollowupTasks | app/tools/claims.py:84-121 | the firing groups' tasks, or the two default tasks when no group fires; the total is their count and never zero |
| Claims.TaskNotFromGroups | app/tools/claims.py:88-115 | a task that belongs to no group is never produced by the groups |
| GraphState.AppendTrace | app/graph/state.py:23-30 | an update that starts with the reset marker replaces the trace with the rest of the update; any other update is appended |
| GraphState.AddMessage | app/graph/state.py:33 | a message without an id, or with a new id, is appended; one with a known id replaces the first message carrying that id, in place, and every other message stays |
| GraphState.FirstWithId | app/graph/state.py:33 | the position of the first message carrying the id |
| GraphState.AddMessages | app/graph/state.py:33 | messages without ids are appended in order; a one-message update is that message's replace-or-append; the history never shrinks and grows by at most the update; the update's last message is present |
| GraphState.AddMessagesKeepsOthers | app/graph/state.py:33 | a message whose id no update message carries keeps its position |
| GraphState.AddMessagesReplaceOnly | app/graph/state.py:33 | an update whose every message carries a known id (the output guardrail's swap) keeps the length and the ids of the history |
| GraphState.ApplyUpdate | app/graph/state.py:33-42 | the trace goes through its reducer, messages through add_messages, and every field the update leaves out keeps its value |
| GraphState.BuildGraphInput | app/graph/state.py:51-65 | the turn input starts the trace with the reset marker and leaves conversation_started alone |
| GraphState.NewTurn | app/graph/state.py:51-65 | a new turn appends the question, empties the trace, and resets action, rewritten query and retry count while keeping conversation_started |
| GraphState.TurnTrace | app/graph/state.py:23-30 | within a turn the trace is exactly the concatenation of the nodes' records, whatever the previous turn left |
| GraphState.FirstTurn | app/graph/state.py:37-65 | the first turn from the defaults holds only the question, with every other field at its default |
| GraphState.ExtractLastHumanQuery | app/graph/state.py:68-73 | the content of the last human message with non-empty content, or "" exactly when there is none |
| GraphState.ExtractToolsUsed | app/graph/state.py:76-81 | the distinct non-empty names of tool messages, each once |
| GraphState.ToolsUsedPrefix | app/graph/state.py:76-81 | the tools reported for a history are a prefix of those reported once more messages follow |
| Guardrails.CheckPromptInjection | app/graph/guardrails.py:184-192 | fails, with the fixed refusal, exactly when some injection pattern matches |
| Guardrails.DomainPasses | app/graph/guardrails.py:227-240 | passes whenever max_in reaches 0.87; below that, passes exactly when max_out exceeds max_in by less than 0.03 |
| Guardrails.DomainMonotone | app/graph/guardrails.py:227-240 | raising the in-domain score never turns a pass into a block |
| Guardrails.StockTipBlocked | app/graph/guardrails.py:140-150 | scores 0.853 in and 0.898 out are blocked |
| Guardrails.CheckDomainRelevance | app/graph/guardrails.py:195-240 | blocks exactly when the stripped text has at least 5 characters, the embedding succeeds and the scores fail the decision; an embedding failure passes |
| Guardrails.CheckPiiLeak | app/graph/guardrails.py:266-271 | fails exactly when some PII pattern matches, naming the first matching kind |
| Guardrails.CheckForbiddenOutput | app/graph/guardrails.py:274-283 | fails exactly when some forbidden pattern matches, quoting the first pattern's match and reason |
| Guardrails.CheckEmptyResponse | app/graph/guardrails.py:286-290 | passes exactly when the text has a non-blank character |
| Guardrails.SkipSpaces | app/graph/guardrails.py:326 | the rest of the text after its leading spaces: empty or starting with a non-space, and no longer than the text |
| Guardrails.SkipSpacesSplit | app/graph/guardrails.py:326 | what is skipped is a run of spaces only and what is left is exactly the remaining suffix |
| Guardrails.SkipSpacesKeepsText | app/graph/guardrails.py:326 | skipping spaces loses no other character |
| Guardrails.CollapseSpaces | app/graph/guardrails.py:326 | the result has no two spaces in a row and starts with the text's first character |
| Guardrails.CollapseKeepsText | app/graph/guardrails.py:326 | the non-space characters of the result are exactly those of the text, in order |
| Guardrails.CollapseOfSpaces | app/graph/guardrails.py:326 | a non-empty run of spaces becomes exactly one space |
| Guardrails.CollapseOfWord | app/graph/guardrails.py:326 | a text without spaces is left unchanged |
| Guardrails.CollapseAppend | app/graph/guardrails.py:326 | when the seam of `x + y` is not inside a run of spaces, the result is the collapse of `x` followed by that of `y`; with the two lemmas above this fixes the result of every text |
| Guardrails.SliceNoDoubleSpace | app/graph/guardrails.py:326 | a slice of text without double spaces has none either |
| Guardrails.SanitizeToolNames | app/graph/guardrails.py:322-326 | the result is the collapsed, stripped text left after removing tool names and then product codes; it has no double spaces and no blank at either end |
| Guardrails.FirstTriggered | app/graph/guardrails.py:359-364 | the disclaimer of the first group sharing a tool with those used, or None exactly when no group does |
| Guardrails.SelectDisclaimer | app/graph/guardrails.py:338-364 | no disclaimer exactly when none of the premium, product or coverage tools was used |
| Guardrails.PremiumFirst | app/graph/guardrails.py:338-364 | using premium_estimate always selects the premium disclaimer, whatever else was used |
| Guardrails.AppendDisclaimer | app/graph/guardrails.py:490-494 | the text changes only by appending "※ disclaimer" after the right-stripped text, and never when the disclaimer or a ※ line is already there |
| Guardrails.AppendDisclaimerOnce | app/graph/guardrails.py:490-494 | appending is idempotent, and once a disclaimer was appended no other one is added |
| Guardrails.InputGuardrail | app/graph/guardrails.py:382-421 | blocks exactly when an injection pattern matches or, before the conversation has started, the domain check fails; a block adds one refusal message, a pass none; conversation_started is never touched |
| Guardrails.FollowupSkipsDomain | app/graph/guardrails.py:397-399 | once the conversation has started, the embedder has no influence on the input guardrail |
| Guardrails.OutputChecks | app/graph/guardrails.py:329 | the response passes exactly when the PII, forbidden-output and empty checks all pass |
| Guardrails.OutputGuardrail | app/graph/guardrails.py:427-526 | pass exactly when the checks pass, retry when they fail below the bound, block at the bound; conversation_started is set exactly on a pass; a retry adds one system hint and counts; a block replaces the answer by the safe response; a pass shows the sanitized answer with its disclaimer |
| Guardrails.RetryAtMostOnce | app/graph/guardrails.py:424-447 | after one retry the next failure blocks, so the output guardrail retries at most once per turn |
| Guardrails.RouteAfterInputGuard | app/graph/guardrails.py:533-537 | block exactly when the action is block, otherwise pass |
| Guardrails.RouteAfterOutputGuard | app/graph/guardrails.py:540-544 | back to the agent exactly when the action is retry, otherwise the end |
| AgentNode.NamedCalls | app/graph/nodes.py:39 | the tool calls that have a name, in order; unchanged exactly when every call is named |
| AgentNode.NamedRawCalls | app/graph/nodes.py:41-43 | the raw provider calls that have a function name, in their order |
| AgentNode.RebuildCleanAi | app/graph/nodes.py:33-46 | the rebuilt message keeps the content and the named calls, drops the invalid ones and the message id, and keeps a raw call list exactly when there was one, filtered the same way |
| AgentNode.NeedsRebuildIffUnclean | app/graph/nodes.py:58-64 | a message is rebuilt exactly when it has an unnamed or invalid call |
| AgentNode.ValidIds | app/graph/nodes.py:51-57 | the ids of the named calls of every AI message |
| AgentNode.CallIds | app/graph/nodes.py:51-57 | the ids of the named calls of one message |
| AgentNode.KeepOne | app/graph/nodes.py:58-80 | what is kept is clean and, for a tool result, answers a valid call; a clean message with a valid answer is kept unchanged |
| AgentNode.Sanitized | app/graph/nodes.py:49-81 | every kept message is clean, no tool result is orphaned, and nothing is added |
| AgentNode.CollectValidIds | app/graph/nodes.py:53-58 | the first pass gathers exactly the ids of the named tool calls of AI messages |
| AgentNode.SanitizeHistory | app/graph/nodes.py:49-81 | the two-pass loop computes exactly the specified history |
| AgentNode.SanitizedKeepsClean | app/graph/nodes.py:49-81 | a history that is already clean and has no orphans is left as it is |
| AgentNode.SanitizedValidIds | app/graph/nodes.py:51-67 | sanitizing keeps the set of valid call ids |
| AgentNode.CallIdsNamed | app/graph/nodes.py:39 | dropping unnamed calls keeps the valid ids |
| AgentNode.SanitizeIdempotent | app/graph/nodes.py:49-81 | sanitizing twice gives the same history as sanitizing once |
| AgentNode.HumanCountAppend | app/graph/nodes.py:84-97 | human turns add up over concatenation |
| AgentNode.HumanIndices | app/graph/nodes.py:89-92 | the position of every human message, in order |
| AgentNode.TrimHistory | app/graph/nodes.py:84-97 | a suffix of the history: unchanged with at most the allowed human turns, otherwise exactly that many turns, starting at a human message |
| AgentNode.SanitizeResponse | app/graph/nodes.py:100-114 | the response comes out clean, and unchanged exactly when it already was |
| AgentNode.WithNames | app/graph/nodes.py:182-183 | the registered tools whose names the search returned, in registry order |
| AgentNode.RoutingQuery | app/graph/nodes.py:173 | the rewritten query when there is one, otherwise the last human question |
| AgentNode.SelectRelevantTools | app/graph/nodes.py:165-187 | all tools for an empty query or a failed search; for a query whose candidates name some tool, exactly the registry-order subset with those names; all tools when no tool is named; never a tool that is not registered |
| AgentNode.AgentPrompt | app/graph/nodes.py:139-141 | the system prompt followed by the sanitized last max_turns turns of the history, whose messages are all clean |
| AgentNode.Agent | app/graph/nodes.py:127-162 | the model's reply, sanitized, as the one new message; a tool-format error is retried once without tools and the retry's sanitized reply is the new message; any other failure raises |
| QueryRewrite.Prior | app/graph/query_rewrite.py:66-69 | the human and AI messages before the newest one, in conversation order |
| QueryRewrite.HumanOrAi | app/graph/query_rewrite.py:66-69 | the human and AI messages of a history, in order |
| QueryRewrite.RewritePrompt | app/graph/query_rewrite.py:93-104 | the rewrite instructions, then at most the last four prior messages, then the question to rewrite |
| QueryRewrite.Decide | app/graph/query_rewrite.py:71-91 | skip exactly when the stripped question has at least 15 characters or there is no prior message; too short exactly when not skipped and the stripped question has at most one character and is not one of 네, 예, 응, M, F, 남, 여 |
| QueryRewrite.QueryRewriter | app/graph/query_rewrite.py:56-128 | never adds messages or touches action, retry count or conversation_started; a skip leaves the rewritten query alone; a meaningless short question is recorded stripped; a rewrite is accepted exactly when the model answers and the cleaned answer is non-empty and differs from the question; a failed model call leaves the rewritten query alone |
| QueryRewrite.RewriterKeepsHistory | app/graph/query_rewrite.py:56-62 | applying the rewriter's update keeps every message |
| QueryRewrite.FirstQuestionNotRewritten | app/graph/query_rewrite.py:71-79 | the first question of a conversation is never rewritten |
| GraphBuilder.ToolReply | app/graph/builder.py:126-146 | a tool message answering the call by id and name: not found for an unregistered tool, the output on success, and `Error executing tool '<name>': <error>` when the tool raises |
| GraphBuilder.ToolReplies | app/graph/builder.py:125-146 | one reply per call, in call order |
| GraphBuilder.DynamicToolNode | app/graph/builder.py:112-149 | raises exactly on an empty history; otherwise exactly one reply per call of the last message, in order |
| GraphBuilder.UnknownToolNotInvoked | app/graph/builder.py:127-134 | an unregistered tool's reply does not depend on invoking anything |
| GraphBuilder.RepliesAnswerCalls | app/graph/builder.py:125-149 | every reply answers a pending call by id and name, so the history sanitizer keeps it |
| GraphBuilder.Next | app/graph/builder.py:152-178 | the transition function: input guard to rewriter or end by its verdict, rewriter to agent, agent to tools exactly when tools are called and else to the output guard, tools back to agent, output guard to agent exactly on retry and else to the end |
| GraphBuilder.NextFollowsEdges | app/graph/builder.py:163-176 | every step the graph takes follows one of its wired edges |
| GraphBuilder.EdgeShape | app/graph/builder.py:163-176 | only the two guardrails end a turn, and the agent is entered only from the rewriter, the tools or a retry |
| Api.NodeToStage | app/main.py:43-56 | the agent node is "analyze" on its first call and "generate" after; mapped nodes take their stage and others keep their name |
| Api.StagesDistinct | app/main.py:43-56 | distinct graph nodes never report the same stage |
| Api.GenerateIsFinal | app/main.py:55 | once the agent reports "generate", every later call does too |
| Api.Tag | app/main.py:163-181 | the open tag has 7 characters and the close tag 8; each starts with `<` and contains no other `<` |
| Api.HeldLength | app/main.py:169-185 | the held tail is the longest suffix of the buffer that is a proper prefix of the tag, and no longer suffix is |
| Api.ThinkFilter.constructor | app/main.py:155-157 | a new filter has an empty buffer and is outside a think block |
| Api.ThinkFilter.Feed | app/main.py:159-188 | what is emitted, followed by what the held buffer would still show, equals (up to newlines) the visible text of the old buffer plus the new chunk, for any continuation; the held buffer is shorter than the tag being looked for |
| Api.FilterStream | app/main.py:152-188 | feeding a stream chunk by chunk shows the stream's text outside think blocks, up to newlines, apart from a held tail shorter than a tag |
| Api.LostBeforeOpenTag | app/main.py:169-174 | the filter as written returns "" for `hello<think>abc` although "hello" precedes the open tag |
| Api.FindAfterFree | app/main.py:175 | after a prefix containing no `<`, the open tag is found right where the prefix ends |
| Api.Detail | app/main.py:856-868 | the rank is absent exactly when the tool is not among the hits, otherwise its first 1-based position; pass@3 holds exactly when the rank is at most 3; at most five top hits |
| Api.Details | app/main.py:856-868 | one detail per when_to_use query, in order, each from a top-5 search |
| Api.SearchExamples | app/main.py:856-868 | the loop searches each when_to_use query with k = 5 and records one detail per query, in query order |
| Api.RecallCountsOrdered | app/main.py:874-876 | queries at rank 1 ≤ those passing at 3 ≤ those within 5 ≤ all queries |
| Api.EvalBatch | app/main.py:850-877 | an unknown tool or one without when_to_use queries is a 404 with the source's message; otherwise each recall is its count over the number of queries rounded to four decimals, with recall@1 ≤ recall@3 ≤ recall@5, all in [0, 1] |
| Api.ReportOrdered | app/main.py:873-876 | whatever the search returns, recall@1 ≤ recall@3 ≤ recall@5 and all three lie in [0, 1] |
| Api.EffectiveRank | app/main.py:776-777 | a missing or zero rank counts as 99, any other rank as itself |
| Api.Improved | app/main.py:773-781 | the improved list holds exactly the queries of the paired rows whose effective rank went down |
| Api.Regressed | app/main.py:773-781 | the regressed list holds exactly the queries of the paired rows whose effective rank went up |
| Api.ImprovedInOrder | app/main.py:773-781 | the improved list is the comprehension over the zipped rows: order and repeats as in the input |
| Api.RegressedInOrder | app/main.py:773-781 | the regressed list is the comprehension over the zipped rows: order and repeats as in the input |
| Api.ComparePartition | app/main.py:775-781 | each paired row is improved, regressed or unchanged, and the three counts add up to the pairs |
| Api.FoundBeatsMissing | app/main.py:776-779 | a tool newly found (rank 1-98) where it was missing counts as improved and never as regressed |
| Api.CompareRanks | app/main.py:773-781 | the loop over zipped rows computes the improved and regressed lists |
| Api.Rank1WithinTop3 | app/main.py:768-771 | rank-1 count ≤ in-top-3 count ≤ rows |
| Api.PercentNearest | app/main.py:836-839 | the percentage of `c` rows out of `n` is within one half of `100·c/n`, an exact half goes to the even neighbour (Python's `round`), and it is 0 when there are no rows |
| Api.PercentMono | app/main.py:836-839 | over the same total, more rows never give a smaller percentage |
| Api.PercentAtMost100 | app/main.py:836-839 | a count within the total is at most 100 per cent |
| Api.CompareAnalysis | app/main.py:759-843 | a blank tool name or an empty side is a 400 with the source's message; otherwise the four rank-1 and top-3 fields are the percentages of each side's count over the as-is length, improved and regressed are the pairs whose rank got better or worse (improved + regressed ≤ total), total is the as-is length, the as-is rank-1 share ≤ its top-3 share ≤ 100, the to-be rank-1 share ≤ its top-3 share, and the to-be top-3 share is ≤ 100 when the to-be list is no longer |

## Left out

- Embeddings, the vector store's similarity search, cosine scores and e5 query prefixes: scores arrive as given reals and each collection is a map from id to text and metadata.
- The language model (agent, rewriter and the LLM-written parts of the admin evaluation endpoints): it is a function parameter returning a message or nothing.
- Regular expressions (injection, PII, forbidden phrases, tool-name scrubbing, the splitter's separators, `_THINK_RE`): each pattern list is a predicate or function parameter; Python `re` is not reimplemented.
- Retries and back-off (`db_retry`, the LLM retry decorator): a call either returns or fails once.
- Locks, `lru_cache` and the double-checked singletons: everything is single-threaded.
- JSON load and save and timestamps in the card store, SQLite schema and seed data, SQL text, PDF parsing (`ingest_pdf`, `ingest_text_file`) and file globbing in the vector-DB script: persistence and I/O are outside the model.
- FastAPI endpoints, SSE streaming, CORS, the MCP transports, and the resources and prompts that `init_mcp` also registers: transport plumbing. The pipeline tool's body is not modelled; only its registration is.
- Printing and formatting in the recall evaluation script; the `card_diff` summary and the LLM prompt of the compare-analysis endpoint.
- The data tables (`app.tools.data`) are not part of this model: every tool takes the tables it reads as parameters.
- `customer_search` and `_rows_to_dicts` in app/tools/customer_db.py: a SQL `LIKE`/`ORDER BY` query with no rule logic beyond the filter.
- The `tone` argument of `compliance_phrase_generator`: it is only echoed back in the reply.
- `duration_ms` and the detail fields of trace records (`tools_bound`, `disclaimer_appended`) that nodes attach, and the ids that `add_messages` assigns to id-less messages.
- The graph run's `recursion_limit` of 30 (app/main.py:136): GraphBuilder.Next is one step of the wired graph, and a run's length is not bounded in the model.
- Message content that is not a string, and `additional_kwargs` keys other than `tool_calls`.
- Floating point: scores, ratios and premium factors are exact reals. `round(x, 4)` is computed on the exact value (nearest multiple of 0.0001, a tie going to the even one), not on its binary float, so a value that lands next to a tie in floating point can round the other way; Retriever.Round4 and every member that reports a rounded figure, such as Api.EvalBatch, share this. The 0.7 and 0.5 factors and the per-year percentage are exact. `int()` truncation toward zero is written out. The comparison percentages are rounded from the exact ratio `100·c/n`, not from the binary float `c / n * 100`, so a share that lands next to an exact half in floating point can round the other way.
- Whitespace is only space, tab, newline and carriage return: the vertical tab, form feed, the separators \x1c–\x1f and Unicode spaces, which Python's `strip`, `split` and `\s` also treat as whitespace, count as ordinary characters here. `str.lower`, `\w` and `\d` are taken over ASCII letters and digits only; `int()` does not accept underscores; `str.format` specs are not modelled.
- CustomerDb.ByStartDesc: contracts with the same start date keep their stored order; SQLite leaves the order of such ties unspecified.
- Splitter.Split: requires chunk_size ≥ 1, because with 0 the forced split (app/rag/splitter.py:159-164) cuts empty chunks forever and never returns.
- Splitter.SplitRecursive: the text-preservation ensures holds only for separators that keep the text they split (a predicate over the separator oracles), since a pattern may consume text.
- Splitter.MergeKeepsText: stated for chunk_overlap 0 only, since overlap deliberately repeats segments.
- Api.ThinkFilter.Feed: output is equal to the reference visible text only up to newlines, because the `lstrip("\n")` after `</think>` depends on how the stream is chunked. A tail still held when the stream ends is not flushed, as in the source.
- Api.FilterStream: for the same reason, the text shown for a whole stream equals the stream's visible text only up to newlines, and the held tail (shorter than a tag) is not part of what is shown.
- Retriever.RAGRetriever.IngestTexts: the vector store's `add` is taken to skip an id it already holds (with a warning) rather than raise; a store that raises on a duplicate id is not modelled. The message of the error raised for a metadata list of the wrong length is the store's and is not pinned down.
- Retriever.RAGRetriever.Retrieve: requires the store's answer to have parallel id, document, distance and metadata lists, as the vector store guarantees.

## Notes on the code

- `build_graph_input` resets `guardrail_retry_count` to 0 on every turn (app/graph/state.py:64), so the output guardrail's retry bound applies per turn.
- The query rewriter sends the last four prior messages as context (app/graph/query_rewrite.py:93).

## Findings

| source | as written | input that shows it | evidently intended | confidence | as-written member | corrected member |
|---|---|---|---|---|---|---|
| app/rag/splitter.py:127-144 | `joiner` is computed before a flush, so after a flush with an empty overlap `current_len` counts a separator that is never written | chunk_size 10, overlap 0, min 0, segments "aaaaaaaa", "bbbbb", "cccc": three chunks | "bbbbb cccc" (10 characters) fits and is one chunk | high, not executed | Splitter.MergeAsWrittenExample | Splitter.MergeSegments |
| app/tool_search/toolcard_store.py:243-256 | the "code" card is read from `CODE_REGISTRY`, which is the same object as the live registry that `publish` overwrites | code purpose "A", publish an override with purpose "B", then reset: the reset re-installs "B" | the reset puts back the card defined in code ("A") | high, not executed | CardStore.ResetAsWrittenExample | CardStore.ToolCardStore.ResetToCode |
| app/main.py:169-174 | inside an unclosed think block `feed` returns "" and drops the text gathered before `<think>` in the same call | a fresh filter fed "hello<think>abc" returns "" | "hello", the text before the open tag | high, not executed | Api.LostBeforeOpenTag | Api.ThinkFilter.Feed |
