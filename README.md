# kgrag: a Dafny model of the retrieval and preprocessing core

kgrag is a knowledge-graph retrieval-augmented question-answering pipeline. Documents are
cleaned and cut into chunks. Entities and relations extracted from them are stored in a Neo4j
graph. At question time the graph is walked from the entities named in the question, and the
result is rendered as a bounded text context for a language model. The pipeline is scored by a
small evaluation suite.

This project models the deterministic core of that pipeline and proves properties of it:

- **Retrieval** (`graph_traverser.dfy`, `connecting_paths.dfy`, `context_compactor.dfy`,
  `context_builder.dfy`, `llm_interface.dfy`):
  - the tiered graph walk with its caps (5 seeds, 50 entities, 10 documents, 5 related,
    5 neighbours) and the search for connecting paths (at most 3);
  - the context compactor: token estimate, per-document compaction, document budget,
    mention de-duplication, grouped rendering and truncation;
  - the Markdown context builder and its citation list;
  - `format_context` of the language-model interface.
- **Preprocessing** (`text_cleaner.dfy`, `text_splitter.dfy`):
  - the four regular-expression substitutions of `clean`, written out as the scans `re.sub`
    performs. The URL pattern is modelled exactly: its class `[$-_]` already holds the digits,
    the capitals and `%`. So does the multi-line page-number pattern, with `\s*` backing off
    to a line end;
  - the paragraph split;
  - fixed-size chunking with back-off and overlap, and the sentence grouping.
- **Helpers** (`helpers.dfy`): `chunk_list`, `deduplicate_entities`, `merge_dictionaries`.
- **Evaluation** (`metrics.dfy`, `test_suite.dfy`): precision@k, recall@k, mean average
  precision, F1, extraction accuracy and the averaging suite, over `real`.

Shared pieces:

- `wrappers.dfy`: `Option`.
- `pystr.dfy`: Python slicing with negative bounds, `strip`, `lower`, `split`, `join`,
  substring search.
- `records.dfy`: the dict records that flow between the retrieval components.

A dict key that may be missing is an `Option` field. A Python dict whose insertion order
matters is a key sequence paired with a map.

The Neo4j gateway is a `GraphOracle` value: four total functions, for entity-with-documents,
related entities, neighbours and shortest path. The traverser slices the related-entity, neighbour and
per-entity document lists of tiers 1 and 2 itself. Those caps are therefore proved without
trusting the database to honour its `limit` arguments. The mentioning documents of a direct
hit are iterated as the gateway returns them; only the ten-document cap bounds what they add. A ghost trace of gateway calls records which names were queried and how many
entities were held at each call.

Two facts came out of the model of `clean`:

- The `\n{3,}` rule can never fire. The preceding `\s+ -> ' '` rule has already removed every
  line feed (`TextCleaning.CollapsedUntouched`).
- For the same reason, `split_into_paragraphs` of a cleaned text yields at most one paragraph
  (`TextCleaning.CleanOneParagraph`).

## Model

| member | source | states |
|---|---|---|
| TextCleaning.UrlMatch | src/preprocessing/text_cleaner.py:14 | a URL match starts with the `http` scheme and is a maximal run of URL-pattern characters (no URL character follows it) |
| TextCleaning.NoUrlLeft | src/preprocessing/text_cleaner.py:20 | after `re.sub(urls, '', text)` no position of the result starts a URL, not even one spliced together from the pieces around a removed URL |
| TextCleaning.RemoveUrlsUnchanged | src/preprocessing/text_cleaner.py:14-20 | URL removal leaves the text unchanged if and only if the text contains no URL |
| TextCleaning.PageNumberAt | src/preprocessing/text_cleaner.py:13 | a page-number match starts at a line start with a digit and ends at a line end (`^\d+\s*$` in multi-line mode) |
| TextCleaning.PageNumberChars | src/preprocessing/text_cleaner.py:13 | a page-number match contains only digits and whitespace |
| TextCleaning.RemovePageNumbersKeepsWords | src/preprocessing/text_cleaner.py:23 | page-number removal deletes only digits and whitespace: every other character survives, in order |
| TextCleaning.RemovePageNumbersNoDigits | src/preprocessing/text_cleaner.py:13-23 | a text without digits is left unchanged by page-number removal |
| TextCleaning.CollapseSpacesSingle | src/preprocessing/text_cleaner.py:26 | after `\s+ -> ' '` the only whitespace is single spaces: no tab or line feed, and no two spaces in a row |
| TextCleaning.CollapseSpacesKeeps | src/preprocessing/text_cleaner.py:26 | the whitespace rule keeps every non-whitespace character, in order |
| TextCleaning.CollapseSpacesSqueeze | src/preprocessing/text_cleaner.py:26 | `\s+ -> ' '` equals the character-by-character rule: the first whitespace character of each maximal run becomes one `' '`, the rest of the run disappears, every other character is kept in place |
| TextCleaning.CollapseNewlinesNone | src/preprocessing/text_cleaner.py:29 | the `\n{3,}` rule leaves a text without line feeds unchanged |
| TextCleaning.CollapsedUntouched | src/preprocessing/text_cleaner.py:26-29 | once whitespace is collapsed, the newline rule changes nothing |
| TextCleaning.StripSingleSpaced | src/preprocessing/text_cleaner.py:32 | `strip` of a single-spaced text is single-spaced, has no space at either end and keeps the non-space characters |
| TextCleaning.CleanSpec | src/preprocessing/text_cleaner.py:17-34 | `clean` returns a single-spaced text with no space at either end, holding exactly the non-space characters of the text after URL and page-number removal |
| TextCleaning.StrippedNonEmptyComprehension | src/preprocessing/text_cleaner.py:39 | the result is `[p.strip() for p in pieces if p.strip()]`: the strips of exactly the non-blank pieces, in piece order, each once |
| TextCleaning.SplitIntoParagraphsComplete | src/preprocessing/text_cleaner.py:36-39 | the paragraphs are the strips of exactly the non-blank pieces of `text.split('\n\n')`, in order |
| TextCleaning.StrippedNonEmptySpec | src/preprocessing/text_cleaner.py:39 | every paragraph kept is non-empty, has no whitespace at either end and is the strip of one of the pieces |
| TextCleaning.SplitIntoParagraphsSpec | src/preprocessing/text_cleaner.py:36-39 | every paragraph is non-empty, trimmed and a substring of the input text |
| TextCleaning.OneParagraph | src/preprocessing/text_cleaner.py:38-39 | a text without line feeds yields at most one paragraph |
| TextCleaning.CleanOneParagraph | src/preprocessing/text_cleaner.py:17-39 | a cleaned text yields at most one paragraph |
| TextSplitting.BackOffSpec | src/preprocessing/text_splitter.py:26-27 | the back-off loop stops on a break character (space, `.`, `!`, `?`, line feed) or at `start`, and skips no break character on the way |
| TextSplitting.CutSpec | src/preprocessing/text_splitter.py:18-31 | the cut is the last break character in the window, or the hard cut at `start + chunk_size` when the window has none |
| TextSplitting.FindCut | src/preprocessing/text_splitter.py:26-31 | the back-off loop computes `Cut` |
| TextSplitting.SpansFromStep | src/preprocessing/text_splitter.py:17-34 | each pass emits the span from `start` to the cut and restarts `overlap` characters before the cut |
| TextSplitting.SplitFromSpans | src/preprocessing/text_splitter.py:12-36 | the loop's output is the accumulated chunks followed by the text slices of the spans |
| TextSplitting.Window | src/preprocessing/text_splitter.py:18-34 | one pass either appends the final tail or moves `start` strictly forward, with the same overall result |
| TextSplitting.SplitTextLoop | src/preprocessing/text_splitter.py:12-36 | the `while` loop returns `SplitText` |
| TextSplitting.SplitTextIsChunks | src/preprocessing/text_splitter.py:12-36 | `split_text` returns the slices of the spans |
| TextSplitting.SpansOverlap | src/preprocessing/text_splitter.py:33-34 | each span after the first starts exactly `overlap` characters before the previous span's end |
| TextSplitting.SplitTextSpans | src/preprocessing/text_splitter.py:12-36 | spans lie in the text, are non-empty and at most `chunk_size` long; the first starts at 0 and the last ends at the text's end; consecutive spans overlap by `overlap`; every character is covered |
| TextSplitting.SplitTextChunks | src/preprocessing/text_splitter.py:12-36 | the empty text gives no chunk; a text of at most `chunk_size` gives itself; chunks are non-empty substrings of at most `chunk_size`, the first a prefix and the last a suffix |
| TextSplitting.BackOffStopsAt | src/preprocessing/text_splitter.py:26-27 | the back-off loop as written stops at the last break character of the window |
| TextSplitting.SplitTextStalls | src/preprocessing/text_splitter.py:33-34 | with the default 1000/200, on `"a"*100 + " " + "b"*2000`, `start` goes from 0 to -100 and then stays at -100 with an empty chunk, so the loop never ends |
| TextSplitting.ForwardSpansAgree | src/preprocessing/text_splitter.py:12-36 | wherever the source's loop makes progress, the corrected splitter computes the same spans |
| TextSplitting.SplitTextForwardChunks | src/preprocessing/text_splitter.py:12-36 | the corrected splitter always ends; its chunks are non-empty substrings of at most `chunk_size` that cover the text, the first a prefix and the last a suffix; it agrees with `split_text` whenever that one terminates |
| TextSplitting.AbsorbKeeps | src/preprocessing/text_splitter.py:52-63 | one sentence through the loop body keeps the invariant: closed and open chunks concatenate to the sentences read, and every chunk is well formed |
| TextSplitting.GroupFromSpec | src/preprocessing/text_splitter.py:49-66 | the loop from any invariant-respecting state ends in well-formed chunks that hold all sentences |
| TextSplitting.SentenceGroupsSpec | src/preprocessing/text_splitter.py:38-66 | the chunks hold every sentence once and in order; each is non-empty, has at most `max_sentences` sentences and, when it has two or more, at most `chunk_size` characters |
| TextSplitting.SplitBySentences | src/preprocessing/text_splitter.py:38-68 | the `for` loop returns the space-joined sentence groups |
| Helpers.ChunkListFlatten | src/utils/helpers.py:11-13 | concatenating the chunks gives back the list |
| Helpers.ChunkListShape | src/utils/helpers.py:13 | there are ⌈n/size⌉ chunks; each is non-empty and at most `size` long; all but the last have exactly `size` elements |
| Helpers.ChunkListIndex | src/utils/helpers.py:13 | chunk `j` is `lst[j*size : j*size + size]` |
| Helpers.DeduplicateEntities | src/utils/helpers.py:15-26 | the `for` loop returns `Dedup` over the normalised text key |
| Helpers.DedupKeys | src/utils/helpers.py:20-24 | the result has exactly the keys of the input |
| Helpers.DedupDistinct | src/utils/helpers.py:20-24 | no two kept entities share a key |
| Helpers.DedupFirstOccurrences | src/utils/helpers.py:15-26 | the kept entities are exactly the first occurrence of each key, in input order |
| Helpers.DedupDistinctFixed | src/utils/helpers.py:15-26 | a list with distinct keys is returned unchanged |
| Helpers.DedupIdempotent | src/utils/helpers.py:15-26 | de-duplicating twice equals de-duplicating once |
| Helpers.DedupSubsequence | src/utils/helpers.py:15-26 | the result is a subsequence of the input |
| Helpers.MergeDictionaries | src/utils/helpers.py:28-38 | the recursive method returns `Merge` |
| Helpers.MergeKey | src/utils/helpers.py:32-36 | one loop iteration handles the next key of `dict2` |
| Helpers.MergeFoldState | src/utils/helpers.py:30-36 | after `i` keys, the key order and the values are those of `dict1` updated by the first `i` keys of `dict2` |
| Helpers.MergeSpec | src/utils/helpers.py:28-38 | the key order is `dict1`'s followed by `dict2`'s new keys; the key set is the union; keys only in `dict1` keep their value; a key of `dict2` gets the recursive merge when both values are dicts, otherwise `dict2`'s value |
| Helpers.MergeEmpty | src/utils/helpers.py:28-38 | merging `{}` into a dict returns it unchanged |
| Helpers.MergeKeysMatch | src/utils/helpers.py:28-38 | the merge of well-formed dicts lists each key once and exactly its keys |
| LlmFormatting.FormatContextBlocks | src/rag/llm_interface.py:14-34 | empty when both lists are empty; otherwise the entity block and/or the relation block, joined by a blank line |
| LlmFormatting.EntityBlockLines | src/rag/llm_interface.py:19-24 | the entity block splits into the title line followed by one line per entity |
| LlmFormatting.RelationBlockLines | src/rag/llm_interface.py:27-32 | the relation block splits into an empty line, the title line, then one line per relation |
| ContextBuilding.ShowNat | src/rag/context_builder.py:39-41 | `f"{i}"` is a non-empty string of decimal digits without a leading zero |
| ContextBuilding.ShowNatValue | src/rag/context_builder.py:39-41 | reading back the digits of `f"{i}"` gives `i` |
| ContextBuilding.Sections | src/rag/context_builder.py:20-42 | at most three sections; none exactly when entities, relationships and paths are all empty |
| ContextBuilding.BuiltContextBound | src/rag/context_builder.py:45-48 | the context is the joined sections when they fit `max_context_length`; otherwise their prefix of that length plus the truncation marker |
| ContextBuilding.BuiltContextEmpty | src/rag/context_builder.py:45-50 | empty graph results give the empty context |
| ContextBuilding.EntityLinesContain | src/rag/context_builder.py:22-23 | every entity line appears in the entity section |
| ContextBuilding.RelationLinesContain | src/rag/context_builder.py:29-33 | every relation line appears in the relation section |
| ContextBuilding.BuiltContextNamesEntities | src/rag/context_builder.py:20-24 | when not truncated, the context names each of the first ten entities (or `N/A`) |
| ContextBuilding.BuiltContextNamesRelations | src/rag/context_builder.py:27-34 | when not truncated, the context holds subject, predicate and object of each of the first fifteen relations, with their defaults |
| ContextBuilding.RelationLineInContext | src/rag/context_builder.py:27-34 | when not truncated, each of the first fifteen relation lines appears in the context |
| ContextBuilding.RenderEntities | src/rag/context_builder.py:20-24 | the loop yields the header and one line for each of the first ten entities |
| ContextBuilding.RenderRelations | src/rag/context_builder.py:27-34 | the loop yields the header and one line for each of the first fifteen relations |
| ContextBuilding.RenderPaths | src/rag/context_builder.py:37-42 | the loop yields the header and one numbered line for each of the first three paths |
| ContextBuilding.BuildContext | src/rag/context_builder.py:11-50 | `build_context` returns `BuiltContext` |
| ContextBuilding.FormatSources | src/rag/context_builder.py:52-61 | each cited source document is listed exactly once, and nothing else |
| ContextCompaction.EstimateTokens | src/rag/context_compactor.py:14-16 | the estimate is the number of whole four-character tokens |
| ContextCompaction.BudgetRoundTrip | src/rag/context_compactor.py:9-16 | a text of exactly `max_chars` characters is estimated at `max_tokens` tokens |
| ContextCompaction.FirstHeadingIsFirst | src/rag/context_compactor.py:25-29 | the title is empty if and only if no line is a `#` heading, and otherwise it is the first heading, stripped |
| ContextCompaction.FindTitle | src/rag/context_compactor.py:25-29 | the loop returns the first heading among the first five lines |
| ContextCompaction.Paragraphs | src/rag/context_compactor.py:34 | every paragraph kept is longer than 50 characters |
| ContextCompaction.ParagraphsComprehension | src/rag/context_compactor.py:34 | the paragraphs are the strips of exactly the pieces whose strip is longer than 50 characters, in piece order |
| ContextCompaction.KeywordHits | src/rag/context_compactor.py:41 | the score is positive if and only if some keyword occurs, and it is at most the number of keywords |
| ContextCompaction.Important | src/rag/context_compactor.py:39-43 | every kept paragraph carries its own score, between 1 and 8 |
| ContextCompaction.ImportantComprehension | src/rag/context_compactor.py:39-43 | the scored list holds `(score, para)` for exactly the paragraphs with a positive score, in paragraph order |
| ContextCompaction.ScoreParagraphs | src/rag/context_compactor.py:39-43 | the loop returns `Important` |
| ContextCompaction.SortByScoreSorts | src/rag/context_compactor.py:45 | the sort is a permutation and orders scores non-increasingly |
| ContextCompaction.SortByScoreStable | src/rag/context_compactor.py:45 | the sort is stable: paragraphs of equal score keep their relative order |
| ContextCompaction.SelectFits | src/rag/context_compactor.py:47-56 | the selected paragraphs plus the introduction fit `max_chars`, and each comes from the ranked list |
| ContextCompaction.SelectParagraphs | src/rag/context_compactor.py:47-56 | the selection loop, with its early `break`, returns `Selected` |
| ContextCompaction.RankParagraphs | src/rag/context_compactor.py:34-45 | filtering, scoring and sorting yield `Ranked` |
| ContextCompaction.ChooseParagraphs | src/rag/context_compactor.py:31-56 | the selection starts from the introduction's length with `max_chars - max_chars // 3` remaining |
| ContextCompaction.AssembleDocument | src/rag/context_compactor.py:58-60 | title, introduction, elision marker and the first five selected paragraphs, as `Assembled` |
| ContextCompaction.CompactedDocument | src/rag/context_compactor.py:18-60 | a document that fits is returned unchanged; otherwise the result is a prefix of the assembled text, at most `max_chars` long and no longer than the document |
| ContextCompaction.CompactDocument | src/rag/context_compactor.py:18-60 | `compact_document` returns `CompactedDocument` |
| ContextCompaction.CompactedStore | src/rag/context_compactor.py:62-83 | the compacted dict is well formed, with the same keys in the same order |
| ContextCompaction.CompactedStoreBounds | src/rag/context_compactor.py:62-83 | each entry keeps its id and title (defaulting to the key); its text is no longer than before, at most 2000 characters and at most the per-document share of the budget |
| ContextCompaction.CompactEntry | src/rag/context_compactor.py:70-81 | one iteration adds the compacted entry for the next key |
| ContextCompaction.CompactDocuments | src/rag/context_compactor.py:62-83 | `compact_documents` returns `CompactedStore` |
| ContextCompaction.Clip | src/rag/context_compactor.py:100-101 | a context of at most 400 characters is kept; a longer one becomes its first 200 characters, `...` and its last 200 |
| ContextCompaction.UniqueContexts | src/rag/context_compactor.py:94-107 | at most one context per entity, each a clipped input context, covering every mentioned entity |
| ContextCompaction.UniqueContextsFirstWins | src/rag/context_compactor.py:96-107 | the context kept for an entity is its first mention |
| ContextCompaction.DeduplicateContexts | src/rag/context_compactor.py:94-107 | the loop returns `UniqueContexts` |
| ContextCompaction.SevenTenths | src/rag/context_compactor.py:115-116 | `int(max_chars * 0.7)`: the largest integer not above seven tenths of the budget, for a non-negative budget |
| ContextCompaction.KeptDocuments | src/rag/context_compactor.py:111-119 | the document dict stays well formed, with the same keys in the same order |
| ContextCompaction.CompactedContextBounds | src/rag/context_compactor.py:85-121 | at most 50 entities and 50 relationships, as prefixes; at most 20 contexts, one per entity, each at most 403 characters; documents untouched while their text fits 70% of the budget, else each cut to its share of that budget and at most 2000 characters |
| ContextCompaction.CompactContext | src/rag/context_compactor.py:85-121 | `compact_context` returns `CompactedContext` |
| ContextCompaction.KeysInOrderSpec | src/rag/context_compactor.py:128-133 | the group keys are distinct and are exactly the keys that occur |
| ContextCompaction.GroupsHoldItems | src/rag/context_compactor.py:128-133 | every item is in the group of its key |
| ContextCompaction.GroupsCount | src/rag/context_compactor.py:128-133 | the group sizes add up to the number of items, so nothing is duplicated |
| ContextCompaction.GroupByKey | src/rag/context_compactor.py:128-133 | the grouping loop returns the keys in first-appearance order and, for each, its values in input order |
| ContextCompaction.Parts | src/rag/context_compactor.py:127-160 | at most three parts; none exactly when entities, relationships and documents are all empty |
| ContextCompaction.CompactContextStringBound | src/rag/context_compactor.py:162-165 | the string is the joined parts when they fit `max_chars`; otherwise their prefix of that length plus the truncation marker |
| ContextCompaction.CompactContextStringEmpty | src/rag/context_compactor.py:123-167 | an empty context renders as the empty string |
| ContextCompaction.ValuesForOrder | src/rag/context_compactor.py:128-133 | the group of a key is `[v for (k, v) in items if k == key]`: the values of exactly the items with that key, in item order |
| ContextCompaction.NameLineAt | src/rag/context_compactor.py:136-137 | the line of each entity type follows the lines of the types before it |
| ContextCompaction.EntitiesTextLine | src/rag/context_compactor.py:127-138 | the entity block holds, after its header and the lines of the earlier types, the line of each type, which lists the first ten or fewer names of that type in entity order |
| ContextCompaction.RelationsTextLine | src/rag/context_compactor.py:140-152 | the relation block holds, after its header and the lines of the earlier types, the line of each type, which lists the first five or fewer pairs of that type in relationship order |
| ContextCompaction.DocLineAt | src/rag/context_compactor.py:156-159 | the entry of each listed document follows the entries of the documents before it |
| ContextCompaction.DocumentsTextEntry | src/rag/context_compactor.py:154-160 | the document block lists at most ten documents; each of the first ten stored documents has its title-and-text entry right after the header and the entries of the documents stored before it |
| ContextCompaction.JoinPresent | src/rag/context_compactor.py:162 | joining the present blocks by a newline puts the first block at the start, the second right after the first and its newline, and the last at the end |
| ContextCompaction.CompactContextStringBlocks | src/rag/context_compactor.py:125-164 | when the blocks fit `max_chars`, the string opens with the entity block, the relation block follows it after a newline, and the document block closes it, each present exactly when its part is non-empty |
| ContextCompaction.RenderEntities | src/rag/context_compactor.py:127-138 | the loops yield one line per entity type, in first-appearance order, with the first ten names |
| ContextCompaction.RenderRelations | src/rag/context_compactor.py:140-152 | the loops yield one line per relation type, in first-appearance order, with the first five pairs |
| ContextCompaction.RenderDocuments | src/rag/context_compactor.py:154-160 | the loop yields a title-and-text block for each of the first ten documents |
| ContextCompaction.CollectParts | src/rag/context_compactor.py:125-160 | the three guarded sections give `Parts` |
| ContextCompaction.BuildCompactContextString | src/rag/context_compactor.py:123-167 | `build_compact_context_string` returns `CompactContextString` |
| GraphTraversal.Admit | src/rag/graph_traverser.py:33-36 | an entity is appended only if its name is new, and its name is then seen; documents, contexts and relationships are unchanged |
| GraphTraversal.AdmitKeeps | src/rag/graph_traverser.py:33-36 | admitting an entity below the 50-entity cap keeps the traversal invariant and only adds |
| GraphTraversal.DocumentOf | src/rag/graph_traverser.py:44-48 | a stored document has the doc id as id, the title defaulting to the id and the text defaulting to empty |
| GraphTraversal.StoreDoc | src/rag/graph_traverser.py:42-49 | a document with a new, non-empty id is appended to the dict under that id and marked seen; anything else changes nothing |
| GraphTraversal.StoreDocKeeps | src/rag/graph_traverser.py:42-49 | storing a document while fewer than ten are held keeps the invariant and only adds |
| GraphTraversal.RelationshipFor | src/rag/graph_traverser.py:71-76 | the relationship runs from the seed name to the related entity, with type defaulting to `relates_to` and strength to 1 |
| GraphTraversal.Emit | src/rag/graph_traverser.py:70-76 | exactly one relationship is appended and nothing else changes |
| GraphTraversal.AttachedKeeps | src/rag/graph_traverser.py:78-90 | the document loop of tiers 1 and 2 keeps the invariant and only adds documents |
| GraphTraversal.AttachedComplete | src/rag/graph_traverser.py:78-90 | every listed document with an id is held afterwards, unless ten documents are held |
| GraphTraversal.AttachedFrom | src/rag/graph_traverser.py:83-90 | every newly held document is the record of a listed document with that id |
| GraphTraversal.AttachDocuments | src/rag/graph_traverser.py:78-90 | the loop stores each listed document in turn and stops as soon as ten are held (`Attached`); the invariant is kept |
| GraphTraversal.ContextRecord | src/rag/graph_traverser.py:52-57 | the context record names the entity, the doc id, the title defaulting to the id, and the mention's context |
| GraphTraversal.MentionContexts | src/rag/graph_traverser.py:51-57 | at most one record per mention, each naming the entity with a non-empty context |
| GraphTraversal.MentionStep | src/rag/graph_traverser.py:38-57 | one mention stores its document as `StoreDoc` does and appends its context record exactly when it carries a context; entities and relationships are unchanged |
| GraphTraversal.MentionStepKeeps | src/rag/graph_traverser.py:38-57 | a mention handled below the document cap keeps the invariant |
| GraphTraversal.DirectHitOfKeeps | src/rag/graph_traverser.py:38-57 | the tier-0 document loop keeps the invariant and only adds documents and contexts |
| GraphTraversal.HandledAll | src/rag/graph_traverser.py:38-40 | the tier-0 loop stops before the end of the mentions only when ten documents are held |
| GraphTraversal.DirectHitContexts | src/rag/graph_traverser.py:38-57 | the contexts added are the records of exactly the handled mentions with a context, in order |
| GraphTraversal.DirectHitStored | src/rag/graph_traverser.py:38-49 | the document of every handled mention with an id is held afterwards |
| GraphTraversal.DirectHitCapped | src/rag/graph_traverser.py:38-40 | once the first mentions fill the ten-document cap, the later ones store nothing and record no context |
| GraphTraversal.DirectHit | src/rag/graph_traverser.py:32-57 | the result is the seed's admission followed by the tier-0 document loop (`DirectHitOf`); the seed entity is held, at most one entity is added and no relationship |
| GraphTraversal.EmitKeeps | src/rag/graph_traverser.py:70-76 | appending the relationship to an already held entity keeps the traversal invariant |
| GraphTraversal.RelatedStepOf | src/rag/graph_traverser.py:65-90 | one related entry admits its entity (entities grow by it exactly when it was not held), appends exactly its relationship from the seed and adds no context |
| GraphTraversal.RelatedStepKeeps | src/rag/graph_traverser.py:65-90 | one related entry keeps the invariant and only adds |
| GraphTraversal.RelatedStep | src/rag/graph_traverser.py:65-90 | the loop body computes `RelatedStepOf`: admit, emit, then at most two documents while fewer than 10 are held |
| GraphTraversal.RelatedFromKeeps | src/rag/graph_traverser.py:61-90 | the related-entity loop keeps the invariant and only adds |
| GraphTraversal.RelatedStopped | src/rag/graph_traverser.py:61-63 | the related-entity loop stops before the end of the candidates only when 50 entities are held |
| GraphTraversal.RelatedEmitted | src/rag/graph_traverser.py:61-76 | the relationships added are exactly one per handled candidate, in candidate order, each from the seed with the relation's type (default `relates_to`) and strength (default 1) |
| GraphTraversal.EmittedCons | src/rag/graph_traverser.py:70-76 | emitting for `m + 1` candidates emits for the first, then for the next `m` |
| GraphTraversal.RelatedHeld | src/rag/graph_traverser.py:65-68 | every handled related entity is held afterwards |
| GraphTraversal.RelatedCount | src/rag/graph_traverser.py:61-68 | each handled related entity adds at most one entity |
| GraphTraversal.RelatedAdded | src/rag/graph_traverser.py:61-68 | every added entity is the entity of a handled related entry |
| GraphTraversal.RelatedTierFacts | src/rag/graph_traverser.py:59-76 | the related-entity loop emits one relationship per examined entry, in order, at most five, all from the seed; fewer only at 50 entities |
| GraphTraversal.RelatedTier | src/rag/graph_traverser.py:59-90 | the loop over the first five related entries is exactly `RelatedFrom`, which stops at 50 entities; it adds no context, and one relationship per examined entry, in gateway order, at most five, all from the seed |
| GraphTraversal.NeighborStep | src/rag/graph_traverser.py:98-115 | one neighbour admits its entity and attaches at most its first document; no relationship or context |
| GraphTraversal.NeighborsFromKeeps | src/rag/graph_traverser.py:94-115 | the neighbour loop keeps the invariant and only adds entities and documents |
| GraphTraversal.NeighborsStopped | src/rag/graph_traverser.py:94-96 | the neighbour loop stops before the end of the candidates only when 50 entities are held |
| GraphTraversal.NeighborsHeld | src/rag/graph_traverser.py:98-101 | every handled neighbour's entity is held afterwards |
| GraphTraversal.NeighborsCount | src/rag/graph_traverser.py:94-101 | each handled neighbour adds at most one entity |
| GraphTraversal.NeighborsAdded | src/rag/graph_traverser.py:94-101 | every added entity is the entity of a handled neighbour |
| GraphTraversal.NeighborTier | src/rag/graph_traverser.py:93-115 | the loop over the first five neighbours is `NeighborsFrom`: each admitted and given at most one document, stopping at 50 entities; at most five entities are added and no relationship or context |
| GraphTraversal.VisitNeighbor | src/rag/graph_traverser.py:98-115 | the loop body computes `NeighborStep` and keeps the invariant |
| GraphTraversal.TiersKeeps | src/rag/graph_traverser.py:59-115 | tiers 1 and 2 keep the invariant and only add |
| GraphTraversal.TiersRelations | src/rag/graph_traverser.py:59-115 | tiers 1 and 2 add at most five relationships, all from the seed |
| GraphTraversal.ExpandHitKeeps | src/rag/graph_traverser.py:32-115 | a found seed's expansion keeps the invariant, only adds, and adds at most five relationships, all from the seed |
| GraphTraversal.SeedFound | src/rag/graph_traverser.py:31-36 | a seed only adds held entities, and a seed the gateway finds has its entity held afterwards |
| GraphTraversal.TraverseGrows | src/rag/graph_traverser.py:27-115 | the seed loop never drops a held entity |
| GraphTraversal.TraverseKeeps | src/rag/graph_traverser.py:27-115 | the seed loop keeps the invariant, only adds, and each handled seed adds at most five relationships, each from one of the seeds |
| GraphTraversal.TraverseStopped | src/rag/graph_traverser.py:27-29 | the seed loop stops before the end of the seeds only when 50 entities are held |
| GraphTraversal.TraverseFound | src/rag/graph_traverser.py:27-36 | every handled seed the gateway finds has its entity held at the end |
| GraphTraversal.TraverseStep | src/rag/graph_traverser.py:27-31 | handling a seed below the cap moves the seed loop on by exactly that seed |
| GraphTraversal.LookedUpAppend | src/rag/graph_traverser.py:27-31 | the lookups of two traces in a row are those of the first, then those of the second |
| GraphTraversal.TraceStep | src/rag/graph_traverser.py:27-31 | a seed's calls appended to the earlier ones keep the trace within the first five names and the gates, and add exactly that seed's lookup |
| GraphTraversal.SeedLoopStart | src/rag/graph_traverser.py:14-22 | the seed loop starts from the empty context with no call made |
| GraphTraversal.SeedLoopEnd | src/rag/graph_traverser.py:27-29 | wherever the seed loop ends, by running out of seeds or at 50 entities, its state is the loop's result |
| GraphTraversal.InvContext | src/rag/graph_traverser.py:14-117 | the invariant gives the returned context's shape: unique named entities, at most 50; a well-formed dict of at most 10 documents keyed by their non-empty ids; complete relationships to held entities; contexts naming held entities |
| GraphTraversal.GatedRelated | src/rag/graph_traverser.py:59-60 | the related entities are looked up exactly when fewer than 25 entities are held, and the state is then `RelatedFrom` of the first five |
| GraphTraversal.GatedNeighbors | src/rag/graph_traverser.py:92-115 | the state is exactly `GatedNeighborsOf`: the neighbour loop only when `max_depth > 1` and fewer than 25 entities are held, and then exactly one neighbour lookup; no relationship or context is added |
| GraphTraversal.GatedQueriesJoin | src/rag/graph_traverser.py:59-93 | the tier-1 lookup followed by the tier-2 lookup are both gated lookups of the seed |
| GraphTraversal.GatedTiers | src/rag/graph_traverser.py:59-115 | the state is exactly `TiersOf`: tier 1 below 25 entities held, then tier 2 under its gate tested on the state tier 1 left; no context is added and at most five relationships, all from the seed |
| GraphTraversal.ExpandHit | src/rag/graph_traverser.py:32-115 | the state is exactly `ExpandHitOf`: admit the entity, run the tier-0 document loop over its mentions (`DirectHitOf`), then `TiersOf`; at most five relationships, all from the seed; lookups respect the 25-entity gate |
| GraphTraversal.ExpandSeed | src/rag/graph_traverser.py:27-115 | the state is exactly `SeedOf`: an unknown seed changes nothing, a found one is `ExpandHitOf`; the seed is looked up exactly once, first; the later calls query only the seed, only below 25 entities held, and ask for neighbours only when `max_depth > 1` |
| GraphTraversal.VisitSeed | src/rag/graph_traverser.py:27-115 | the loop body computes `SeedOf` and moves the loop state on by one seed |
| GraphTraversal.SeedLoop | src/rag/graph_traverser.py:27-115 | the loop over the seeds computes `TraverseOf` from the empty context; its trace looks up exactly the handled seeds, in order, within the gates |
| GraphTraversal.TraverseFromEntities | src/rag/graph_traverser.py:12-117 | the result is exactly `TraverseOf` over the first five names from the empty context; those names are looked up in order, stopping early only at 50 entities; every looked-up name the gateway finds has its entity in the result; entities are named, unique and at most 50; documents are a well-formed dict of at most 10, keyed by their non-empty ids; at most five relationships per seed, each from one of the first five names to a held entity; every context names a held entity; the tier gates hold |
| ConnectingPaths.PathPairsShape | src/rag/graph_traverser.py:123-124 | the pairs queried are `(i, j)` with `i < 3` and `i < j <= i + 2` inside the list |
| ConnectingPaths.FoundPathsSound | src/rag/graph_traverser.py:125-127 | every path kept is the gateway's answer for one queried pair |
| ConnectingPaths.FoundPathsComplete | src/rag/graph_traverser.py:125-127 | every path the gateway finds for a queried pair is kept |
| ConnectingPaths.EarlyStop | src/rag/graph_traverser.py:128-129 | returning at three paths gives the first three paths of the full scan |
| ConnectingPaths.QueryPair | src/rag/graph_traverser.py:125-127 | one query adds the pair's path if the gateway finds one, and nothing otherwise |
| ConnectingPaths.ScanRow | src/rag/graph_traverser.py:124-129 | the inner loop adds the paths of the row's pairs, stopping at three |
| ConnectingPaths.AllScanned | src/rag/graph_traverser.py:123-131 | after all rows with fewer than three paths, the result is the full scan |
| ConnectingPaths.FindConnectingPaths | src/rag/graph_traverser.py:119-131 | the result is the first three paths found, in scan order |
| Metrics.HitsCard | src/evaluation/metrics.py:16 | for a list without repeats, the hit count is the number of distinct relevant items retrieved |
| Metrics.HitsAtMostRelevant | src/evaluation/metrics.py:16-27 | for a list without repeats, the hits are at most the number of relevant items |
| Metrics.PrecisionAtKSpec | src/evaluation/metrics.py:10-17 | 0 for an empty retrieval; a division by zero exactly when the `k`-slice is empty (for example `k = 0`); hits over length for `k` past the end; always between 0 and 1 |
| Metrics.RecallAtKBounds | src/evaluation/metrics.py:19-27 | recall is non-negative, and at most 1 when the retrieved list has no repeats |
| Metrics.MeanAveragePrecision | src/evaluation/metrics.py:30-47 | the loop returns `MeanAveragePrecisionOf` |
| Metrics.PrecisionSumBounds | src/evaluation/metrics.py:38-42 | the sum of precisions at the hits is between 0 and the number of hits |
| Metrics.MeanAveragePrecisionBounds | src/evaluation/metrics.py:30-47 | MAP is non-negative, and at most 1 when the retrieved list has no repeats |
| Metrics.MeanAveragePrecisionAllHits | src/evaluation/metrics.py:30-47 | when every retrieved item is relevant, MAP is retrieved over relevant, and 1 when the lengths match |
| Metrics.F1ScoreSpec | src/evaluation/metrics.py:50-54 | F1 is symmetric, equals `p` when both inputs are `p`, and lies between precision and recall |
| Metrics.F1Between | src/evaluation/metrics.py:50-54 | for `0 <= lo <= hi`, F1 lies between `lo` and `hi` |
| Metrics.ExtractionAccuracySpec | src/evaluation/metrics.py:57-68 | accuracy is in [0, 1]; it is 1 if and only if every true (text, label) pair was predicted, and 0 if and only if none was |
| TestSuite.RangeHits | src/evaluation/test_suite.py:29-33 | with `range` ids, the hits are the smaller of the two lengths |
| TestSuite.CasePrecisionRecall | src/evaluation/test_suite.py:29-33 | per case, precision is min(n, m)/m and recall is min(n, m)/n, with 0 for an empty side |
| TestSuite.CaseFiguresBounds | src/evaluation/test_suite.py:26-34 | accuracy, precision, recall and F1 of a case lie in [0, 1] |
| TestSuite.PrecisionAtFullLength | src/evaluation/test_suite.py:32 | precision at the full length never divides by zero |
| TestSuite.PrecisionAtPositiveK | src/evaluation/test_suite.py:62-63 | precision at 5 and at 10 never divides by zero |
| TestSuite.ScoreExtractionCase | src/evaluation/test_suite.py:21-34 | the four figures of one extraction case |
| TestSuite.TestEntityExtraction | src/evaluation/test_suite.py:12-47 | each report field is the average of its per-case figures, 0 for no cases |
| TestSuite.TestRetrieval | src/evaluation/test_suite.py:49-78 | each report field is the average of P@5, P@10, R@10 and MAP over the cases, 0 for no cases |
| TestSuite.RunCompleteSuite | src/evaluation/test_suite.py:80-89 | the two reports are exactly the averages `test_entity_extraction` and `test_retrieval` compute on the inputs; the overall score is the mean of their average F1 and mean average precision; it is non-negative and at most 1 when retrieved lists have no repeats; an empty case list gives all-zero reports |
| TestSuite.AverageBounds | src/evaluation/test_suite.py:43-46 | the average of non-negative figures is non-negative, and at most 1 when they all are |
| TestSuite.ExtractionBounds | src/evaluation/test_suite.py:12-47 | the four extraction averages lie in [0, 1] |
| TestSuite.MapBounds | src/evaluation/test_suite.py:49-78 | the average MAP is non-negative, and at most 1 when no retrieved list has repeats |

## Left out

- Floating point: metrics and averages are exact `real`s, not IEEE doubles. An empty suite
  averages to `0.0` where Python returns the integer `0`.
- ContextCompaction.SevenTenths: `int(self.max_chars * 0.7)` is computed as the exact integer
  floor of `7 * max_chars / 10`. The double rounding of `0.7` is not modelled.
- A dict key that holds `None` is not told apart from a missing key. Both are `None` in the
  `Option` fields. This matters for `.get(key, default)` on a key present with value `None`.
  For example, a document whose `title` key holds `None` keeps `None` in the source, where
  the model uses the default.
- ConnectingPaths.FindConnectingPaths: the source keeps a path when `if path:` holds. An empty
  dict returned by the gateway is falsy and dropped there, but the model keeps every `Some`.
- `re.split(r'(?<=[.!?])\s+', text)` in `split_by_sentences` is not modelled.
  TextSplitting.SplitBySentences takes the sentence list it produces as input.
- Characters: `\s`, `str.isspace`, `\d` and `str.lower` are modelled on the ASCII and Latin-1
  range only. The rest of Unicode is not covered.
- The source's lack of type checks is not modelled:
  - ContextCompaction.RenderEntities: requires the first ten names of every entity type to be
    present. The source's `', '.join` raises `TypeError` on a `None` name, and that error path
    is a precondition here.
  - LlmFormatting.FormatContextBlocks: requires every entity to have a `name`. The source raises
    `KeyError` otherwise.
  - The gateway's entities always carry a name (`GraphEntity`), so the traverser's `KeyError`
    path is excluded.
- ContextBuilding.FormatSources: `list(set(...))` has no defined order. The model promises a
  repeat-free list with exactly the cited sources, in some order.
- ContextBuilding.BuildContext: `vector_results` and `include_citations` are accepted and
  unused, as in the source.
- TextSplitting.SplitText: defined only for inputs on which the source's loop ends (the
  `ProgressFrom` precondition). See the finding below for inputs on which it does not end.
- Metrics.MeanAveragePrecisionBounds: MAP is proved at most 1 only for retrieved lists without
  repeats. With repeats it can exceed 1. Metrics.RecallAtKBounds,
  TestSuite.RunCompleteSuite and TestSuite.MapBounds carry the same condition.
- Helpers.ChunkList: requires `chunk_size > 0`. The source's `range(0, len(lst), 0)` raises
  `ValueError`, and a negative size gives `[]` for any list; neither path is modelled.
- TextSplitting.SplitTextSpans: requires `0 <= overlap`. A negative overlap makes consecutive
  chunks leave gaps, so the covering property does not hold; that case is not modelled.
- TextSplitting.SplitTextChunks: requires `0 <= overlap`, for the same reason.
- GraphTraversal.DirectHit: the number of mentioning documents of a seed (`limit_docs=3`) is
  the gateway's to honour; the model only bounds what they add by the ten-document cap.
- Helpers.MergeSpec: non-dict values are an opaque `Scalar`. Only the dict/non-dict
  distinction that `merge_dictionaries` tests is modelled.
- `generate_id` (an MD5 digest) and `pretty_print_json` (console output) are not modelled.
  They are a foreign hash and I/O.
- The Neo4j queries behind the gateway (src/graph/graph_queries.py) are not part of this
  model. The gateway is a parameter.
- `LLMInterface.answer_question`, the Anthropic client and the environment lookup of the API
  key are network and I/O, and are not modelled.

## Findings

| source | as written | input that shows it | evidently intended | confidence | as-written member | corrected member |
|---|---|---|---|---|---|---|
| src/preprocessing/text_splitter.py:33-34 | `start = end - self.overlap` moves `start` back whenever the back-off cut lies within `overlap` of `start`, possibly below 0; with a negative `start` the window backs off to the same cut, `text[start:end]` is empty and `start` returns to the same value, so the loop never ends | `"a"*100 + " " + "b"*2000` with `chunk_size=1000`, `overlap=200`: the first pass cuts at the space (index 100) and sets `start` to -100; every later pass backs off from 900 to that space again, appends `""` and sets `start` to -100 again | each pass moves `start` strictly forward, so the loop ends and the chunks cover the text | not executed | TextSplitting.SplitTextStalls | TextSplitting.SplitTextForwardChunks |
